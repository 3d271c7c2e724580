/**
 * The poll details page (client/src/PollDetails.tsx): which view a loaded
 * poll gets, the tally shown for a completed poll, and the checks made before
 * a vote is sent.
 */
module PollDetails {
  import opened Wrappers
  import opened Json
  import opened JsString
  import opened ClientPoll

  /** The component's state; `poll` is None until the poll has loaded. */
  datatype DetailsState = DetailsState(now: int, poll: Option<Poll>, voter: string, vote: string, error: string)

  /** What render shows. */
  datatype View = Loading | Completed | Ongoing

  /** render: the loading text, or the completed or ongoing view of the poll. */
  function Render(s: DetailsState): View
  {
    if s.poll.None? then Loading
    else if s.poll.value.endTime <= s.now as real then Completed
    else Ongoing
  }

  /** The voters among `among` whose vote is `o`. */
  function Voters(votes: map<string, string>, among: set<string>, o: string): set<string>
  {
    set v | v in among && v in votes && votes[v] == o
  }

  /** The voters whose vote is one of `opts`. */
  function VotersIn(votes: map<string, string>, opts: set<string>): set<string>
  {
    set v | v in votes && votes[v] in opts
  }

  /** The percentage of `count` in `total`: the exact quotient times 100, rounded half up. */
  function Percent(count: nat, total: nat): (r: nat)
    requires 0 < total
    ensures (2 * total) * r <= 200 * count + total < (2 * total) * (r + 1)
    ensures count <= total ==> r <= 100
  {
    var r := (200 * count + total) / (2 * total);
    DivisionBounds(200 * count + total, 2 * total);
    assert count <= total ==> r <= 100 by {
      if count <= total {
        AtMostHundred(count, total, r);
      }
    }
    r
  }

  /** Euclidean division leaves a remainder below the divisor. */
  lemma DivisionBounds(a: nat, d: nat)
    requires 0 < d
    ensures d * (a / d) <= a < d * (a / d + 1)
  {
  }

  /** A share of at most all the votes rounds to at most 100. */
  lemma AtMostHundred(count: nat, total: nat, r: nat)
    requires 0 < total && count <= total
    requires (2 * total) * r <= 200 * count + total
    ensures r <= 100
  {
    assert (2 * total) * r < (2 * total) * 101;
    CancelFactor(2 * total, r, 101);
  }

  /** A positive factor can be cancelled from both sides of `<`. */
  lemma CancelFactor(t: nat, a: nat, b: nat)
    requires 0 < t && t * a < t * b
    ensures a < b
  {
  }

  /** The values chosen by the voters among `among`. */
  function Chosen(votes: map<string, string>, among: set<string>): set<string>
  {
    set v | v in among && v in votes :: votes[v]
  }

  /** `counts` holds, for each value chosen by the voters in `done`, how many of them chose it. */
  ghost predicate CountsOf(votes: map<string, string>, done: set<string>, counts: map<string, nat>)
  {
    && counts.Keys == Chosen(votes, done)
    && forall o :: o in counts ==> counts[o] == |Voters(votes, done, o)|
  }

  /** Counting one more voter keeps `CountsOf`. */
  lemma CountOneMore(votes: map<string, string>, done: set<string>, v: string, counts: map<string, nat>)
    requires v in votes && v !in done && CountsOf(votes, done, counts)
    ensures CountsOf(votes, done + {v},
      counts[votes[v] := (if votes[v] in counts then counts[votes[v]] else 0) + 1])
  {
    var item := votes[v];
    var after := done + {v};
    var next := counts[item := (if item in counts then counts[item] else 0) + 1];
    assert Chosen(votes, after) == Chosen(votes, done) + {item};
    assert Voters(votes, after, item) == Voters(votes, done, item) + {v};
    if item !in counts {
      assert forall w :: w in Voters(votes, done, item) ==> item in Chosen(votes, done);
      assert Voters(votes, done, item) == {};
    }
    forall o | o in next
      ensures next[o] == |Voters(votes, after, o)|
    {
      if o != item {
        assert Voters(votes, after, o) == Voters(votes, done, o);
      }
    }
  }

  /** The first loop of renderCompleted: for each value some voter chose, how many chose it. */
  method CountVotes(votes: map<string, string>) returns (counts: map<string, nat>)
    ensures counts.Keys == votes.Values
    ensures forall o :: o in counts ==> counts[o] == |Voters(votes, votes.Keys, o)|
  {
    counts := map[];
    var todo := votes.Keys;
    ghost var done: set<string> := {};
    while todo != {}
      invariant todo <= votes.Keys && done == votes.Keys - todo
      invariant CountsOf(votes, done, counts)
      decreases todo
    {
      var v :| v in todo;
      var item := votes[v];
      CountOneMore(votes, done, v, counts);
      if item in counts {
        counts := counts[item := counts[item] + 1];
      } else {
        counts := counts[item := 1];
      }
      todo := todo - {v};
      done := done + {v};
    }
    assert done == votes.Keys;
    ChosenByAll(votes);
  }

  /** Every value in the map is chosen by some voter. */
  lemma ChosenByAll(votes: map<string, string>)
    ensures Chosen(votes, votes.Keys) == votes.Values
  {
  }

  /**
   * The results of renderCompleted: a row for each value that some voter chose
   * (and no other), holding the share of all voters who chose it, in whole
   * percent rounded half up. Without votes there are no rows.
   */
  method Tally(votes: map<string, string>) returns (results: map<string, nat>)
    ensures results.Keys == votes.Values
    ensures forall o :: o in results ==> 0 < |votes| && results[o] == Percent(|Voters(votes, votes.Keys, o)|, |votes|)
  {
    results := CountVotes(votes);
    // Divide by the number of votes to get percentages.
    var numVotes := |votes|;
    ghost var counts := results;
    if results != map[] {
      var o :| o in results;
      var v :| v in votes && votes[v] == o;
      assert votes != map[];
    }
    var keys := results.Keys;
    while keys != {}
      invariant keys <= results.Keys && results.Keys == counts.Keys
      invariant results != map[] ==> 0 < numVotes
      invariant forall o :: o in results ==> results[o] == if o in keys then counts[o] else Percent(counts[o], numVotes)
      decreases keys
    {
      var key :| key in keys;
      results := results[key := Percent(results[key], numVotes)];
      keys := keys - {key};
    }
  }

  /** Sum of the vote counts of the values in `opts`. */
  ghost function SumOver(votes: map<string, string>, opts: set<string>): nat
    decreases opts
  {
    if opts == {} then 0
    else
      var o :| o in opts;
      |Voters(votes, votes.Keys, o)| + SumOver(votes, opts - {o})
  }

  /** Summing the counts of some values counts the voters who chose one of them. */
  lemma {:induction false} SumOverCounts(votes: map<string, string>, opts: set<string>)
    ensures SumOver(votes, opts) == |VotersIn(votes, opts)|
    decreases opts
  {
    if opts != {} {
      forall smaller | smaller < opts
        ensures SumOver(votes, smaller) == |VotersIn(votes, smaller)|
      {
        SumOverCounts(votes, smaller);
      }
      forall o | o in opts
        ensures |VotersIn(votes, opts)| == |Voters(votes, votes.Keys, o)| + |VotersIn(votes, opts - {o})|
      {
        assert VotersIn(votes, opts) == Voters(votes, votes.Keys, o) + VotersIn(votes, opts - {o});
        assert Voters(votes, votes.Keys, o) !! VotersIn(votes, opts - {o});
      }
    }
  }

  /** The counts of the rows add up to the number of voters. */
  lemma CountsSumToVoters(votes: map<string, string>)
    ensures SumOver(votes, votes.Values) == |votes|
  {
    SumOverCounts(votes, votes.Values);
    assert VotersIn(votes, votes.Values) == votes.Keys;
  }

  /** The request doVoteClick sends to /api/vote. */
  datatype VoteArgs = VoteArgs(name: string, voter: string, vote: string)

  const MissingField: string := "a required field is missing."
  const NotAnOption: string := "vote is not a valid option"

  /**
   * doVoteClick on the page of poll `name` (the button exists only once the
   * poll has loaded): the error it shows, or the untrimmed vote it sends.
   */
  function VoteClick(name: string, s: DetailsState): (r: Result<VoteArgs, string>)
    requires s.poll.Some?
    ensures r == Failure(MissingField) <==> Blank(s.voter) || Blank(s.vote)
    ensures r == Failure(NotAnOption) <==> !Blank(s.voter) && !Blank(s.vote) && Str(s.vote) !in s.poll.value.options
    ensures r.Success? <==> !Blank(s.voter) && !Blank(s.vote) && Str(s.vote) in s.poll.value.options
    ensures r.Success? ==> r.value == VoteArgs(name, s.voter, s.vote)
  {
    TrimEmptyIffBlank(s.voter);
    TrimEmptyIffBlank(s.vote);
    if |Trim(s.voter)| == 0 || |Trim(s.vote)| == 0 then Failure(MissingField)
    else if Str(s.vote) !in s.poll.value.options then Failure(NotAnOption)
    else Success(VoteArgs(name, s.voter, s.vote))
  }
}
