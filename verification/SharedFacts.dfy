/** Votes on shared facts: two array columns that always show where every voter stands. */
module SharedFacts {
  import opened Sequences

  datatype FactType = Claim | Decision | Assumption | Contradiction

  datatype Fact = Fact(
    conversationId: string, content: string, sourceAgent: string, kind: FactType, confidence: real,
    confirmedBy: seq<string>, disputedBy: seq<string>)

  datatype Vote = Vote(agent: string, confirms: bool)

  // ---- What a history of votes means -------------------------------------------

  predicate VotesIn(votes: seq<Vote>, agent: string) {
    exists k :: 0 <= k < |votes| && votes[k].agent == agent
  }

  /** The agent of the first vote, if it is of the given kind and no later vote replaces it. */
  function FirstUpholder(votes: seq<Vote>, confirms: bool): (first: seq<string>)
    requires votes != []
    ensures |first| <= 1
  {
    if votes[0].confirms == confirms && !VotesIn(votes[1..], votes[0].agent) then [votes[0].agent] else []
  }

  /** The agents whose latest vote is of the given kind, in order of that vote. */
  function Upholders(votes: seq<Vote>, confirms: bool): seq<string> {
    if votes == [] then [] else FirstUpholder(votes, confirms) + Upholders(votes[1..], confirms)
  }

  ghost function Voters(votes: seq<Vote>): set<string> {
    set k | 0 <= k < |votes| :: votes[k].agent
  }

  /** The position of an agent's latest vote, or -1. */
  function LatestVote(votes: seq<Vote>, agent: string): (k: int)
    ensures -1 <= k < |votes|
  {
    if votes == [] then -1
    else if votes[|votes| - 1].agent == agent then |votes| - 1
    else LatestVote(votes[..|votes| - 1], agent)
  }

  // ---- The program ------------------------------------------------------------------

  /** PostgreSQL's array_remove and array_append. */
  function ArrayRemove(s: seq<string>, x: string): seq<string> {
    if s == [] then [] else (if s[0] == x then [] else [s[0]]) + ArrayRemove(s[1..], x)
  }

  function ArrayAppend(s: seq<string>, x: string): seq<string> {
    s + [x]
  }

  /** The nearest value between 0 and 1. */
  function Clamped(x: real): (c: real)
    ensures 0.0 <= c <= 1.0
    ensures x < 0.0 ==> c == 0.0
    ensures 0.0 <= x <= 1.0 ==> c == x
    ensures x > 1.0 ==> c == 1.0
  {
    if x < 0.0 then 0.0 else if x > 1.0 then 1.0 else x
  }

  /** Two versions of a row that differ in nothing but the columns of the voters. */
  predicate SameFact(before: Fact, after: Fact) {
    after == before.(confirmedBy := after.confirmedBy, disputedBy := after.disputedBy)
  }

  /** The fact table, with the votes cast on each fact since it was added. */
  class FactStore {
    var rows: map<string, Fact>
    ghost var votes: map<string, seq<Vote>>

    ghost predicate Valid()
      reads this
    {
      && rows.Keys == votes.Keys
      && forall id :: id in rows ==>
        && rows[id].confirmedBy == Upholders(votes[id], true)
        && rows[id].disputedBy == Upholders(votes[id], false)
        && 0.0 <= rows[id].confidence <= 1.0
    }

    constructor ()
      ensures Valid() && rows == map[]
    {
      rows, votes := map[], map[];
    }

    /** The source agent counts as the first confirmer; id is the fresh UUID. */
    method AddFact(id: string, conversationId: string, content: string, sourceAgent: string, kind: FactType,
                   confidence: real)
      requires Valid() && id !in rows
      modifies this
      ensures Valid() && votes == old(votes)[id := [Vote(sourceAgent, true)]]
      ensures rows == old(rows)[id :=
        Fact(conversationId, content, sourceAgent, kind, Clamped(confidence), [sourceAgent], [])]
    {
      var low := if confidence > 0.0 then confidence else 0.0;
      var clamped := if low < 1.0 then low else 1.0;
      rows := rows[id := Fact(conversationId, content, sourceAgent, kind, clamped, [sourceAgent], [])];
      votes := votes[id := [Vote(sourceAgent, true)]];
      OneVote(sourceAgent);
    }

    method ConfirmFact(factId: string, agentId: string)
      requires Valid()
      modifies this
      ensures Valid() && rows.Keys == old(rows).Keys
      ensures factId !in old(rows) ==> rows == old(rows) && votes == old(votes)
      ensures factId in old(rows) ==> votes == old(votes)[factId := old(votes)[factId] + [Vote(agentId, true)]]
      ensures factId in old(rows) ==> SameFact(old(rows)[factId], rows[factId])
      ensures forall k :: k in rows && k != factId ==> rows[k] == old(rows)[k]
    {
      if factId !in rows {
        return;
      }
      var row := rows[factId];
      rows := rows[factId := row.(
        confirmedBy := ArrayAppend(ArrayRemove(row.confirmedBy, agentId), agentId),
        disputedBy := ArrayRemove(row.disputedBy, agentId))];
      UpholdersAppend(votes[factId], Vote(agentId, true), true);
      UpholdersAppend(votes[factId], Vote(agentId, true), false);
      votes := votes[factId := votes[factId] + [Vote(agentId, true)]];
    }

    method DisputeFact(factId: string, agentId: string)
      requires Valid()
      modifies this
      ensures Valid() && rows.Keys == old(rows).Keys
      ensures factId !in old(rows) ==> rows == old(rows) && votes == old(votes)
      ensures factId in old(rows) ==> votes == old(votes)[factId := old(votes)[factId] + [Vote(agentId, false)]]
      ensures factId in old(rows) ==> SameFact(old(rows)[factId], rows[factId])
      ensures forall k :: k in rows && k != factId ==> rows[k] == old(rows)[k]
    {
      if factId !in rows {
        return;
      }
      var row := rows[factId];
      rows := rows[factId := row.(
        disputedBy := ArrayAppend(ArrayRemove(row.disputedBy, agentId), agentId),
        confirmedBy := ArrayRemove(row.confirmedBy, agentId))];
      UpholdersAppend(votes[factId], Vote(agentId, false), true);
      UpholdersAppend(votes[factId], Vote(agentId, false), false);
      votes := votes[factId := votes[factId] + [Vote(agentId, false)]];
    }
  }

  lemma OneVote(agent: string)
    ensures Upholders([Vote(agent, true)], true) == [agent] && Upholders([Vote(agent, true)], false) == []
  {
  }

  lemma VotesAppend(votes: seq<Vote>, v: Vote, agent: string)
    ensures VotesIn(votes + [v], agent) <==> VotesIn(votes, agent) || v.agent == agent
  {
    assert (votes + [v])[|votes|] == v;
    if k :| 0 <= k < |votes| && votes[k].agent == agent {
      assert (votes + [v])[k].agent == agent;
    }
  }

  /** A later vote can only take the first agent out. */
  lemma FirstUpholderAppend(votes: seq<Vote>, v: Vote, confirms: bool)
    requires votes != []
    ensures FirstUpholder(votes + [v], confirms) == ArrayRemove(FirstUpholder(votes, confirms), v.agent)
  {
    assert (votes + [v])[1..] == votes[1..] + [v];
    VotesAppend(votes[1..], v, votes[0].agent);
  }

  lemma RemoveFrom(first: seq<string>, rest: seq<string>, x: string)
    requires |first| <= 1
    ensures ArrayRemove(first + rest, x) == ArrayRemove(first, x) + ArrayRemove(rest, x)
  {
    if first == [] {
      assert first + rest == rest;
    } else {
      assert (first + rest)[1..] == rest && first[1..] == [];
    }
  }

  /** A new vote takes the agent out of wherever it stood and puts it at the end of its side. */
  lemma {:induction false} UpholdersAppend(votes: seq<Vote>, v: Vote, confirms: bool)
    ensures Upholders(votes + [v], confirms) ==
      ArrayRemove(Upholders(votes, confirms), v.agent) + if v.confirms == confirms then [v.agent] else []
  {
    if votes == [] {
      assert (votes + [v])[1..] == [];
    } else {
      var last := if v.confirms == confirms then [v.agent] else [];
      assert (votes + [v])[1..] == votes[1..] + [v];
      UpholdersAppend(votes[1..], v, confirms);
      FirstUpholderAppend(votes, v, confirms);
      RemoveFrom(FirstUpholder(votes, confirms), Upholders(votes[1..], confirms), v.agent);
      Regroup(ArrayRemove(FirstUpholder(votes, confirms), v.agent),
              ArrayRemove(Upholders(votes[1..], confirms), v.agent), last);
    }
  }

  // ---- What the columns show -----------------------------------------------------------

  /** An agent is on a side exactly when it has voted and its latest vote is for that side. */
  lemma {:induction false} SideOfLatestVote(votes: seq<Vote>, agent: string, confirms: bool)
    ensures agent in Upholders(votes, confirms) <==>
      LatestVote(votes, agent) >= 0 && votes[LatestVote(votes, agent)].confirms == confirms
  {
    if votes != [] {
      SideOfLatestVote(votes[1..], agent, confirms);
      LatestVoteIsLatest(votes[1..], agent);
      LatestVoteShift(votes, agent);
    }
  }

  lemma {:induction false} LatestVoteIsLatest(votes: seq<Vote>, agent: string)
    ensures LatestVote(votes, agent) >= 0 ==> votes[LatestVote(votes, agent)].agent == agent
    ensures forall j :: LatestVote(votes, agent) < j < |votes| ==> votes[j].agent != agent
    ensures LatestVote(votes, agent) >= 0 <==> VotesIn(votes, agent)
  {
    if votes != [] {
      LatestVoteIsLatest(votes[..|votes| - 1], agent);
      assert forall j :: 0 <= j < |votes| - 1 ==> votes[j] == votes[..|votes| - 1][j];
    }
  }

  /** Looking for the latest vote from the front. */
  lemma LatestVoteShift(votes: seq<Vote>, agent: string)
    requires votes != []
    ensures LatestVote(votes, agent) ==
      if VotesIn(votes[1..], agent) then LatestVote(votes[1..], agent) + 1
      else if votes[0].agent == agent then 0 else -1
  {
    var k, j := LatestVote(votes, agent), LatestVote(votes[1..], agent);
    LatestVoteIsLatest(votes, agent);
    LatestVoteIsLatest(votes[1..], agent);
    assert forall i :: 0 < i < |votes| ==> votes[i] == votes[1..][i - 1];
    if j >= 0 {
      assert votes[j + 1].agent == agent;
      assert forall i :: j + 1 < i < |votes| ==> votes[i].agent != agent;
    } else {
      assert forall i :: 0 < i < |votes| ==> votes[i].agent != agent;
      assert VotesIn(votes, agent) <==> votes[0].agent == agent;
    }
  }

  /** An agent on a side of the later votes cast its latest vote among them. */
  lemma LaterInTail(votes: seq<Vote>, confirms: bool, agent: string)
    requires votes != [] && agent in Upholders(votes[1..], confirms)
    ensures LatestVote(votes, agent) == LatestVote(votes[1..], agent) + 1 >= 1
  {
    SideOfLatestVote(votes[1..], agent, confirms);
    LatestVoteIsLatest(votes[1..], agent);
    LatestVoteShift(votes, agent);
  }

  lemma FirstBeforeTail(votes: seq<Vote>, confirms: bool, agent: string)
    requires votes != [] && FirstUpholder(votes, confirms) != [] && agent in Upholders(votes[1..], confirms)
    ensures LatestVote(votes, FirstUpholder(votes, confirms)[0]) < LatestVote(votes, agent)
  {
    LatestVoteShift(votes, votes[0].agent);
    LaterInTail(votes, confirms, agent);
  }

  lemma TailKeepsOrder(votes: seq<Vote>, confirms: bool, a: string, b: string)
    requires votes != [] && a in Upholders(votes[1..], confirms) && b in Upholders(votes[1..], confirms)
    requires LatestVote(votes[1..], a) < LatestVote(votes[1..], b)
    ensures LatestVote(votes, a) < LatestVote(votes, b)
  {
    LaterInTail(votes, confirms, a);
    LaterInTail(votes, confirms, b);
  }

  lemma UpholderAt(votes: seq<Vote>, confirms: bool, k: nat)
    requires k < |Upholders(votes, confirms)|
    ensures votes != []
    ensures k < |FirstUpholder(votes, confirms)| ==>
      Upholders(votes, confirms)[k] == FirstUpholder(votes, confirms)[k]
    ensures k >= |FirstUpholder(votes, confirms)| ==>
      && k - |FirstUpholder(votes, confirms)| < |Upholders(votes[1..], confirms)|
      && Upholders(votes, confirms)[k] == Upholders(votes[1..], confirms)[k - |FirstUpholder(votes, confirms)|]
  {
  }

  /** Each side lists its agents in order of their latest votes, so none twice. */
  lemma {:induction false} OrderedByLatestVote(votes: seq<Vote>, confirms: bool, i: nat, j: nat)
    requires i < j < |Upholders(votes, confirms)|
    ensures LatestVote(votes, Upholders(votes, confirms)[i]) < LatestVote(votes, Upholders(votes, confirms)[j])
    decreases |votes|
  {
    UpholderAt(votes, confirms, i);
    UpholderAt(votes, confirms, j);
    var rest, n := Upholders(votes[1..], confirms), |FirstUpholder(votes, confirms)|;
    if i < n {
      FirstBeforeTail(votes, confirms, rest[j - n]);
    } else {
      OrderedByLatestVote(votes[1..], confirms, i - n, j - n);
      TailKeepsOrder(votes, confirms, rest[i - n], rest[j - n]);
    }
  }

  lemma NoneTwice(votes: seq<Vote>, confirms: bool)
    ensures Distinct(Upholders(votes, confirms))
  {
    forall i, j | 0 <= i < j < |Upholders(votes, confirms)|
      ensures Upholders(votes, confirms)[i] != Upholders(votes, confirms)[j]
    {
      OrderedByLatestVote(votes, confirms, i, j);
    }
  }

  lemma {:induction false} CountDistinct(s: seq<string>)
    requires Distinct(s)
    ensures |set a | a in s| == |s|
  {
    if s != [] {
      var n := |s| - 1;
      CountDistinct(s[..n]);
      assert (set a | a in s) == (set a | a in s[..n]) + {s[n]};
    }
  }

  /** Every voter is on exactly one side: the sides are disjoint and together count the voters. */
  lemma SidesPartitionVoters(votes: seq<Vote>)
    ensures forall a :: !(a in Upholders(votes, true) && a in Upholders(votes, false))
    ensures |Upholders(votes, true)| + |Upholders(votes, false)| == |Voters(votes)|
  {
    var yes, no := Upholders(votes, true), Upholders(votes, false);
    forall a ensures !(a in yes && a in no) && (a in yes || a in no <==> a in Voters(votes)) {
      SidesOfAgent(votes, a);
    }
    NoneTwice(votes, true);
    NoneTwice(votes, false);
    CountParts(yes, no, Voters(votes));
  }

  lemma CountParts(yes: seq<string>, no: seq<string>, all: set<string>)
    requires Distinct(yes) && Distinct(no)
    requires forall a :: !(a in yes && a in no) && (a in yes || a in no <==> a in all)
    ensures |yes| + |no| == |all|
  {
    CountDistinct(yes);
    CountDistinct(no);
    var ys, ns := set a | a in yes, set a | a in no;
    assert ys + ns == all && ys !! ns;
  }

  lemma SidesOfAgent(votes: seq<Vote>, a: string)
    ensures !(a in Upholders(votes, true) && a in Upholders(votes, false))
    ensures a in Upholders(votes, true) || a in Upholders(votes, false) <==> a in Voters(votes)
  {
  }
}
