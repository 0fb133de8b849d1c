/** One deliberation run: registration, the debate round over the bus, the confidence score, and the
    reset that ends every run. */
module Deliberation {
  import opened MessageBus
  import opened Wrappers

  datatype CouncilMember = CouncilMember(id: string, name: string)

  datatype Conflict = Conflict(agentA: string, agentB: string, claimA: string, claimB: string)

  /** What a call to a model yields. */
  datatype Reply = Text(text: string) | Throws

  // ---- Reading a rebuttal --------------------------------------------------------

  datatype RebuttalType = Conceded | Rebutted

  /** The structured form found in a reply by the regular expression, if any, and lower-casing. */
  datatype Reader = Reader(structured: string -> Option<RebuttalType>, lower: string -> string)

  predicate Includes(s: string, part: string) {
    part <= s || (s != "" && Includes(s[1..], part))
  }

  function Opening(text: string): string {
    if |text| <= 100 then text else text[..100]
  }

  predicate Concedes(opening: string) {
    || Includes(opening, "i concede")
    || Includes(opening, "you are correct")
    || Includes(opening, "i agree with your point")
  }

  function Classify(text: string, reader: Reader): RebuttalType {
    match reader.structured(text)
    case Some(t) => t
    case None =>
      var opening := reader.lower(Opening(text));
      if Concedes(opening) then Conceded else Rebutted
  }

  // ---- What a debate consists of ----------------------------------------------------

  predicate OnCouncil(members: seq<CouncilMember>, id: string) {
    exists i :: 0 <= i < |members| && members[i].id == id
  }

  /** A conflict is debated when both sides are on the council. */
  predicate Debatable(members: seq<CouncilMember>, c: Conflict) {
    OnCouncil(members, c.agentA) && OnCouncil(members, c.agentB)
  }

  /** The positions of the conflicts that are debated. */
  function Debates(members: seq<CouncilMember>, conflicts: seq<Conflict>): (positions: seq<nat>)
    ensures |positions| <= |conflicts|
    ensures forall i :: 0 <= i < |positions| ==>
      positions[i] < |conflicts| && Debatable(members, conflicts[positions[i]])
  {
    if conflicts == [] then []
    else
      var n := |conflicts| - 1;
      Debates(members, conflicts[..n]) + if Debatable(members, conflicts[n]) then [n] else []
  }

  /** Whether the model call of one of the first k debates throws. */
  ghost predicate SomeCallThrows(members: seq<CouncilMember>, conflicts: seq<Conflict>, k: nat, replies: nat -> Reply)
    requires k <= |conflicts|
  {
    exists i :: 0 <= i < k && Debatable(members, conflicts[i]) && replies(i).Throws?
  }

  /** Whether the consumer of the events closes the generator at one of the first n messages. */
  ghost predicate ConsumerLeaves(leaves: nat -> bool, n: nat) {
    exists j :: 0 <= j < n && leaves(j)
  }

  /** Whether the debates over the first k conflicts end early. */
  ghost predicate CutShortBefore(members: seq<CouncilMember>, conflicts: seq<Conflict>, k: nat, replies: nat -> Reply,
                                 leaves: nat -> bool)
    requires k <= |conflicts|
  {
    || SomeCallThrows(members, conflicts, k, replies)
    || ConsumerLeaves(leaves, 2 * |Debates(members, conflicts[..k])|)
  }

  /** Whether the debates end early: the model call of one throws, or the consumer leaves at a message. */
  ghost predicate CutShort(members: seq<CouncilMember>, conflicts: seq<Conflict>, replies: nat -> Reply,
                           leaves: nat -> bool) {
    || SomeCallThrows(members, conflicts, |conflicts|, replies)
    || ConsumerLeaves(leaves, 2 * |Debates(members, conflicts)|)
  }

  lemma DebatesAppend(members: seq<CouncilMember>, conflicts: seq<Conflict>, k: nat)
    requires k < |conflicts|
    ensures Debatable(members, conflicts[k]) ==>
      Debates(members, conflicts[..k + 1]) == Debates(members, conflicts[..k]) + [k]
    ensures !Debatable(members, conflicts[k]) ==>
      Debates(members, conflicts[..k + 1]) == Debates(members, conflicts[..k])
  {
    assert conflicts[..k + 1][..k] == conflicts[..k];
  }

  lemma {:induction false} FewerDebates(members: seq<CouncilMember>, conflicts: seq<Conflict>, k: nat)
    requires k <= |conflicts|
    ensures |Debates(members, conflicts[..k])| <= |Debates(members, conflicts)|
    decreases |conflicts| - k
  {
    if k < |conflicts| {
      DebatesAppend(members, conflicts, k);
      FewerDebates(members, conflicts, k + 1);
    } else {
      assert conflicts[..k] == conflicts;
    }
  }

  /** Debates that end early among the first conflicts end early. */
  lemma CutShortSoon(members: seq<CouncilMember>, conflicts: seq<Conflict>, k: nat, replies: nat -> Reply,
                     leaves: nat -> bool)
    requires k <= |conflicts| && CutShortBefore(members, conflicts, k, replies, leaves)
    ensures CutShort(members, conflicts, replies, leaves)
  {
    FewerDebates(members, conflicts, k);
  }

  /** Whether one debate, whose critique is message number sent, ends early. */
  predicate DebateCut(reply: Reply, leaves: nat -> bool, sent: nat) {
    leaves(sent) || reply.Throws? || leaves(sent + 1)
  }

  lemma ThrowsNext(members: seq<CouncilMember>, conflicts: seq<Conflict>, k: nat, replies: nat -> Reply)
    requires k < |conflicts|
    ensures SomeCallThrows(members, conflicts, k + 1, replies) <==>
      SomeCallThrows(members, conflicts, k, replies) || (Debatable(members, conflicts[k]) && replies(k).Throws?)
  {
  }

  lemma LeavesNext(leaves: nat -> bool, n: nat)
    ensures ConsumerLeaves(leaves, n + 2) <==> ConsumerLeaves(leaves, n) || leaves(n) || leaves(n + 1)
  {
  }

  lemma CutShortNext(members: seq<CouncilMember>, conflicts: seq<Conflict>, k: nat, replies: nat -> Reply,
                     leaves: nat -> bool)
    requires k < |conflicts|
    ensures CutShortBefore(members, conflicts, k + 1, replies, leaves) <==>
      || CutShortBefore(members, conflicts, k, replies, leaves)
      || (Debatable(members, conflicts[k])
          && DebateCut(replies(k), leaves, 2 * |Debates(members, conflicts[..k])|))
  {
    DebatesAppend(members, conflicts, k);
    ThrowsNext(members, conflicts, k, replies);
    LeavesNext(leaves, 2 * |Debates(members, conflicts[..k])|);
  }

  function CritiqueText(c: Conflict): string {
    "I disagree with your claim: \"" + c.claimB + "\". My position: \"" + c.claimA + "\""
  }

  function KindOf(text: string, reader: Reader): MessageType {
    match Classify(text, reader) case Conceded => Concession case Rebutted => Rebuttal
  }

  /** A critique and its answer, which carries the reply and says whether it concedes. */
  ghost predicate IsExchange(c: Conflict, reply: Reply, reader: Reader, critique: Message, answer: Message) {
    IsCritique(c, critique) && IsAnswer(c, reply, reader, answer)
  }

  ghost predicate IsCritique(c: Conflict, critique: Message) {
    && critique.from == c.agentA && critique.to == c.agentB
    && critique.kind == Critique && critique.content == CritiqueText(c)
  }

  ghost predicate IsAnswer(c: Conflict, reply: Reply, reader: Reader, answer: Message) {
    && reply.Text? && answer.from == c.agentB && answer.to == c.agentA
    && answer.content == reply.text && answer.kind == KindOf(reply.text, reader)
  }

  ghost predicate AreExchanges(positions: seq<nat>, conflicts: seq<Conflict>, replies: nat -> Reply, reader: Reader,
                               messages: seq<Message>) {
    && |messages| == 2 * |positions|
    && forall k :: 0 <= k < |positions| ==>
      && positions[k] < |conflicts|
      && IsExchange(conflicts[positions[k]], replies(positions[k]), reader, messages[2 * k], messages[2 * k + 1])
  }

  /** How many of the replies concede. */
  function Concessions(positions: seq<nat>, replies: nat -> Reply, reader: Reader): (n: nat)
    ensures n <= |positions|
  {
    if positions == [] then 0
    else
      var n := |positions| - 1;
      var reply := replies(positions[n]);
      Concessions(positions[..n], replies, reader)
        + if reply.Text? && Classify(reply.text, reader) == Conceded then 1 else 0
  }

  function CountKind(messages: seq<Message>, kind: MessageType): nat {
    if messages == [] then 0
    else
      var n := |messages| - 1;
      CountKind(messages[..n], kind) + if messages[n].kind == kind then 1 else 0
  }

  // ---- The confidence score -----------------------------------------------------------

  /** The score before rounding, over rationals instead of floating-point numbers. */
  function Confidence(totalFacts: nat, conflicts: nat, concessions: nat, rebuttals: nat, members: nat): real {
    var claimScore := ClaimScore(totalFacts, conflicts);
    var debateScore := DebateScore(concessions, rebuttals);
    var raw := claimScore * 0.6 + debateScore * 0.3 + DiversityBonus(members);
    if raw < 1.0 then raw else 1.0
  }

  function ClaimScore(totalFacts: nat, conflicts: nat): real {
    if totalFacts > 0 then (totalFacts - conflicts) as real / totalFacts as real else 1.0
  }

  function DebateScore(concessions: nat, rebuttals: nat): real {
    if concessions + rebuttals > 0 then concessions as real / (concessions + rebuttals) as real else 1.0
  }

  function DiversityBonus(members: nat): real {
    (if members as real / 5.0 < 1.0 then members as real / 5.0 else 1.0) * 0.1
  }

  /** Math.round(x * 100) / 100 */
  function Hundredths(x: real): real {
    (x * 100.0 + 0.5).Floor as real / 100.0
  }

  /** The confidence event. */
  datatype Score = Score(
    score: real, claimAgreement: real, debateResolution: real, diversityBonus: real,
    totalConflicts: nat, totalConcessions: nat, totalRebuttals: nat)

  function Report(totalFacts: nat, conflicts: nat, concessions: nat, rebuttals: nat, members: nat): Score {
    Score(Hundredths(Confidence(totalFacts, conflicts, concessions, rebuttals, members)),
          Hundredths(ClaimScore(totalFacts, conflicts)),
          Hundredths(DebateScore(concessions, rebuttals)),
          Hundredths(DiversityBonus(members)),
          conflicts, concessions, rebuttals)
  }

  /** The report of a run that is not cut short, from its input and the replies it gets. */
  function FinalReport(totalFacts: nat, members: seq<CouncilMember>, conflicts: seq<Conflict>, replies: nat -> Reply,
                       reader: Reader): Score {
    var debates := Debates(members, conflicts);
    var concessions := Concessions(debates, replies, reader);
    Report(totalFacts, |conflicts|, concessions, |debates| - concessions, |members|)
  }

  // ---- The program ------------------------------------------------------------------------

  ghost predicate NobodyBusy(agents: map<string, AgentState>) {
    forall id :: id in agents ==> agents[id].status == Idle
  }

  lemma IdleAgain(agents: map<string, AgentState>, a: string, b: string)
    ensures var debating := WithStatus(WithStatus(agents, a, Debating), b, Debating);
      NobodyBusy(agents) ==> NobodyBusy(WithStatus(WithStatus(debating, a, Idle), b, Idle))
  {
  }

  class Orchestrator {
    const bus: AgentMessageBus

    /** Between runs the bus is empty. */
    ghost predicate Valid()
      reads this, bus
    {
      bus.Valid() && bus.IsEmpty()
    }

    constructor ()
      ensures Valid() && fresh(bus)
    {
      bus := new AgentMessageBus();
    }

    method RegisterMember(member: CouncilMember)
      requires bus.Valid() && bus.accepted == [] && NobodyBusy(bus.agents)
      modifies bus
      ensures bus.Valid() && bus.accepted == [] && NobodyBusy(bus.agents)
      ensures bus.agents.Keys == old(bus.agents.Keys) + {member.id}
    {
      bus.RegisterAgent(member.id, member.name);
    }

    method RegisterMembers(members: seq<CouncilMember>)
      requires bus.Valid() && bus.accepted == [] && bus.agents == map[]
      modifies bus
      ensures bus.Valid() && bus.accepted == [] && NobodyBusy(bus.agents)
      ensures forall i :: 0 <= i < |members| ==> members[i].id in bus.agents
    {
      for i := 0 to |members|
        invariant bus.Valid() && bus.accepted == [] && NobodyBusy(bus.agents)
        invariant forall j :: 0 <= j < i ==> members[j].id in bus.agents.Keys
      {
        RegisterMember(members[i]);
      }
    }

    method SetBoth(a: string, b: string, status: Status)
      requires bus.Valid()
      modifies bus`agents
      ensures bus.Valid() && bus.agents.Keys == old(bus.agents).Keys
      ensures bus.agents == WithStatus(WithStatus(old(bus.agents), a, status), b, status)
    {
      bus.SetAgentStatus(a, status);
      bus.SetAgentStatus(b, status);
    }

    /** The first half of a debate. */
    method Challenge(c: Conflict, stamp: Stamp) returns (critique: Message)
      requires bus.Valid() && c.agentA in bus.agents && c.agentB in bus.agents
      modifies bus
      ensures bus.Valid() && IsCritique(c, critique) && bus.accepted == old(bus.accepted) + [critique]
      ensures bus.agents == WithStatus(WithStatus(old(bus.agents), c.agentA, Debating), c.agentB, Debating)
    {
      SetBoth(c.agentA, c.agentB, Debating);
      var challenge := CritiqueText(c);
      critique := bus.SendMessage(c.agentA, c.agentB, challenge, Critique, stamp);
    }

    /** The second half of a debate. */
    method Respond(c: Conflict, reply: Reply, reader: Reader, stamp: Stamp, leaves: bool)
        returns (answer: Option<Message>, ended: bool)
      requires bus.Valid() && c.agentA in bus.agents && c.agentB in bus.agents && reply.Text?
      modifies bus
      ensures bus.Valid() && bus.agents.Keys == old(bus.agents).Keys
      ensures answer.Some? && IsAnswer(c, reply, reader, answer.value) && ended == leaves
      ensures bus.accepted == old(bus.accepted) + [answer.value]
      ensures !ended ==> bus.agents == WithStatus(WithStatus(old(bus.agents), c.agentA, Idle), c.agentB, Idle)
    {
      var kind := KindOf(reply.text, reader);
      var message := bus.SendMessage(c.agentB, c.agentA, reply.text, kind, stamp);
      answer, ended := Some(message), leaves;
      if leaves {
        return;
      }
      SetBoth(c.agentA, c.agentB, Idle);
    }

    /** One debate: the critique, the model call, and unless that fails the answer. The consumer is handed
        both messages, and may leave each time. */
    method Debate(c: Conflict, reply: Reply, reader: Reader, stamps: nat -> Stamp, leaves: nat -> bool, sent: nat)
        returns (critique: Message, answer: Option<Message>, ended: bool)
      requires bus.Valid() && c.agentA in bus.agents && c.agentB in bus.agents
      modifies bus
      ensures bus.Valid() && bus.agents.Keys == old(bus.agents).Keys
      ensures IsCritique(c, critique) && (answer.Some? <==> !leaves(sent) && reply.Text?)
      ensures answer.Some? ==> IsAnswer(c, reply, reader, answer.value)
      ensures bus.accepted == old(bus.accepted) + if answer.Some? then [critique, answer.value] else [critique]
      ensures ended <==> DebateCut(reply, leaves, sent)
      ensures !ended && NobodyBusy(old(bus.agents)) ==> NobodyBusy(bus.agents)
    {
      critique := Challenge(c, stamps(sent));
      answer, ended := None, true;
      if leaves(sent) {
        return;
      }
      if reply.Throws? {
        return;
      }
      answer, ended := Respond(c, reply, reader, stamps(sent + 1), leaves(sent + 1));
      assert old(bus.accepted) + [critique] + [answer.value] == old(bus.accepted) + [critique, answer.value];
      IdleAgain(old(bus.agents), c.agentA, c.agentB);
    }

    /** The state of the debate loop before conflict number k. */
    ghost predicate Debated(members: seq<CouncilMember>, conflicts: seq<Conflict>, k: nat, replies: nat -> Reply,
                            reader: Reader, leaves: nat -> bool, exchanges: seq<Message>)
      requires k <= |conflicts|
      reads this, bus
    {
      && bus.Valid() && bus.accepted == exchanges && NobodyBusy(bus.agents)
      && AreExchanges(Debates(members, conflicts[..k]), conflicts, replies, reader, exchanges)
      && !CutShortBefore(members, conflicts, k, replies, leaves)
    }

    /** One turn of the debate loop. */
    method DebateConflict(members: seq<CouncilMember>, conflicts: seq<Conflict>, k: nat, replies: nat -> Reply,
                          reader: Reader, stamps: nat -> Stamp, leaves: nat -> bool, earlier: seq<Message>)
        returns (exchanges: seq<Message>, ended: bool)
      requires k < |conflicts| && Debated(members, conflicts, k, replies, reader, leaves, earlier)
      requires forall i :: 0 <= i < |members| ==> members[i].id in bus.agents
      modifies bus
      ensures bus.Valid() && bus.agents.Keys == old(bus.agents).Keys
      ensures !ended ==> Debated(members, conflicts, k + 1, replies, reader, leaves, exchanges)
      ensures ended ==> CutShortBefore(members, conflicts, k + 1, replies, leaves)
    {
      var c := conflicts[k];
      exchanges, ended := earlier, false;
      DebatesAppend(members, conflicts, k);
      CutShortNext(members, conflicts, k, replies, leaves);
      if !OnCouncil(members, c.agentA) || !OnCouncil(members, c.agentB) {
        return;
      }
      var critique, answer;
      critique, answer, ended := Debate(c, replies(k), reader, stamps, leaves, |exchanges|);
      if !ended {
        ExchangesAppend(Debates(members, conflicts[..k]), conflicts, replies, reader, earlier, k,
                        critique, answer.value);
        exchanges := exchanges + [critique, answer.value];
      }
    }

    /** The debate loop; it is left early when a model call fails or the consumer leaves. */
    method DebateRound(members: seq<CouncilMember>, conflicts: seq<Conflict>, replies: nat -> Reply, reader: Reader,
                       stamps: nat -> Stamp, leaves: nat -> bool)
        returns (exchanges: seq<Message>, ended: bool)
      requires bus.Valid() && bus.accepted == [] && NobodyBusy(bus.agents)
      requires forall i :: 0 <= i < |members| ==> members[i].id in bus.agents
      modifies bus
      ensures bus.Valid() && (!ended ==> NobodyBusy(bus.agents))
      ensures !ended ==> AreExchanges(Debates(members, conflicts), conflicts, replies, reader, exchanges)
      ensures !ended ==> bus.accepted == exchanges && bus.allMessages == LastOf(500, exchanges)
      ensures ended <==> CutShort(members, conflicts, replies, leaves)
    {
      exchanges, ended := [], false;
      for k := 0 to |conflicts|
        invariant bus.agents.Keys == old(bus.agents).Keys
        invariant Debated(members, conflicts, k, replies, reader, leaves, exchanges)
      {
        exchanges, ended := DebateConflict(members, conflicts, k, replies, reader, stamps, leaves, exchanges);
        if ended {
          CutShortSoon(members, conflicts, k + 1, replies, leaves);
          return;
        }
      }
      assert conflicts[..|conflicts|] == conflicts;
    }

    /** The confidence report of a debate that was not cut short. */
    method ScoreRun(members: seq<CouncilMember>, conflicts: seq<Conflict>, totalFacts: nat, exchanges: seq<Message>,
                    ghost replies: nat -> Reply, ghost reader: Reader)
        returns (score: Score)
      requires AreExchanges(Debates(members, conflicts), conflicts, replies, reader, exchanges)
      ensures score == FinalReport(totalFacts, members, conflicts, replies, reader)
    {
      var agreements := CountKind(exchanges, Concession);
      var disagreements := CountKind(exchanges, Rebuttal);
      CountExchanges(Debates(members, conflicts), conflicts, replies, reader, exchanges);
      score := Report(totalFacts, |conflicts|, agreements, disagreements, |members|);
    }

    /** A whole run. It may end before or after the debates for any reason, a failure of an external call or a
        consumer that closes the generator; the finally block resets the bus however the run ends. */
    method Run(members: seq<CouncilMember>, conflicts: seq<Conflict>, totalFacts: nat, endsBefore: bool,
               endsAfter: bool, replies: nat -> Reply, reader: Reader, stamps: nat -> Stamp, leaves: nat -> bool)
        returns (score: Option<Score>)
      requires Valid()
      modifies bus
      ensures Valid()
      ensures score.Some? <==> !endsBefore && !endsAfter && !CutShort(members, conflicts, replies, leaves)
      ensures score.Some? ==> score.value == FinalReport(totalFacts, members, conflicts, replies, reader)
    {
      score := None;
      RegisterMembers(members);
      if !endsBefore {
        var exchanges, ended := DebateRound(members, conflicts, replies, reader, stamps, leaves);
        if !ended && !endsAfter {
          var report := ScoreRun(members, conflicts, totalFacts, exchanges, replies, reader);
          score := Some(report);
        }
      }
      bus.Reset();
    }
  }

  lemma ExchangesAppend(positions: seq<nat>, conflicts: seq<Conflict>, replies: nat -> Reply, reader: Reader,
                        messages: seq<Message>, p: nat, critique: Message, answer: Message)
    requires AreExchanges(positions, conflicts, replies, reader, messages)
    requires p < |conflicts| && IsExchange(conflicts[p], replies(p), reader, critique, answer)
    ensures AreExchanges(positions + [p], conflicts, replies, reader, messages + [critique, answer])
  {
  }

  /** Each debate ends in one concession or one rebuttal, as its reply says. */
  lemma {:induction false} CountExchanges(positions: seq<nat>, conflicts: seq<Conflict>, replies: nat -> Reply,
                                          reader: Reader, messages: seq<Message>)
    requires AreExchanges(positions, conflicts, replies, reader, messages)
    ensures CountKind(messages, Concession) == Concessions(positions, replies, reader)
    ensures CountKind(messages, Concession) + CountKind(messages, Rebuttal) == |positions|
    decreases |positions|
  {
    if positions != [] {
      var n := |positions| - 1;
      var earlier, critique, answer := messages[..2 * n], messages[2 * n], messages[2 * n + 1];
      assert IsExchange(conflicts[positions[n]], replies(positions[n]), reader, critique, answer);
      assert messages == earlier + [critique, answer];
      CountTwoMore(earlier, critique, answer, Concession);
      CountTwoMore(earlier, critique, answer, Rebuttal);
      ExchangesPrefix(positions, conflicts, replies, reader, messages, n);
      CountExchanges(positions[..n], conflicts, replies, reader, earlier);
    }
  }

  lemma ExchangesPrefix(positions: seq<nat>, conflicts: seq<Conflict>, replies: nat -> Reply, reader: Reader,
                        messages: seq<Message>, n: nat)
    requires AreExchanges(positions, conflicts, replies, reader, messages) && n <= |positions|
    ensures AreExchanges(positions[..n], conflicts, replies, reader, messages[..2 * n])
  {
    forall k | 0 <= k < n
      ensures messages[..2 * n][2 * k] == messages[2 * k] && messages[..2 * n][2 * k + 1] == messages[2 * k + 1]
    {
    }
  }

  lemma CountTwoMore(messages: seq<Message>, a: Message, b: Message, kind: MessageType)
    ensures CountKind(messages + [a, b], kind) ==
      CountKind(messages, kind) + (if a.kind == kind then 1 else 0) + (if b.kind == kind then 1 else 0)
  {
    var more := messages + [a, b];
    assert more[..|more| - 1] == messages + [a] && (messages + [a])[..|messages|] == messages;
  }

  // ---- What the messages say -------------------------------------------------------------------

  predicate OccursAt(s: string, phrase: string, i: int) {
    0 <= i && i + |phrase| <= |s| && s[i..i + |phrase|] == phrase
  }

  lemma OccursLater(s: string, phrase: string, i: int)
    requires s != "" && i >= 0
    ensures OccursAt(s, phrase, i + 1) <==> OccursAt(s[1..], phrase, i)
  {
    if i + 1 + |phrase| <= |s| {
      assert s[1..][i..i + |phrase|] == s[i + 1..i + 1 + |phrase|];
    }
  }

  lemma OccursFirst(s: string, phrase: string)
    ensures OccursAt(s, phrase, 0) <==> phrase <= s
  {
  }

  lemma {:induction false} IncludesOccurs(s: string, phrase: string)
    ensures Includes(s, phrase) <==> exists i :: OccursAt(s, phrase, i)
  {
    OccursFirst(s, phrase);
    if s != "" {
      IncludesOccurs(s[1..], phrase);
      if i :| OccursAt(s[1..], phrase, i) {
        OccursLater(s, phrase, i);
      }
      if i :| OccursAt(s, phrase, i) && i > 0 {
        OccursLater(s, phrase, i - 1);
      }
    }
  }

  lemma CritiqueSays(c: Conflict, critique: Message)
    requires IsCritique(c, critique)
    ensures critique.from == c.agentA && critique.to == c.agentB && critique.kind == Critique
    ensures critique.content
         == "I disagree with your claim: \"" + c.claimB + "\". My position: \"" + c.claimA + "\""
  {
  }

  /** The answer comes from the challenged agent and carries the reply. If the reply has a structured form, that
      says whether it concedes; otherwise it concedes if and only if one of three phrases occurs in its first 100
      characters, in lower case. */
  lemma AnswerSays(c: Conflict, reply: Reply, reader: Reader, answer: Message, opening: string)
    requires IsAnswer(c, reply, reader, answer)
    requires opening == reader.lower(if |reply.text| <= 100 then reply.text else reply.text[..100])
    ensures answer.from == c.agentB && answer.to == c.agentA && answer.content == reply.text
    ensures reader.structured(reply.text) == Some(Conceded) ==> answer.kind == Concession
    ensures reader.structured(reply.text) == Some(Rebutted) ==> answer.kind == Rebuttal
    ensures reader.structured(reply.text) == None ==>
      (answer.kind == Concession <==>
        || (exists i :: OccursAt(opening, "i concede", i))
        || (exists i :: OccursAt(opening, "you are correct", i))
        || (exists i :: OccursAt(opening, "i agree with your point", i)))
    ensures answer.kind == Concession || answer.kind == Rebuttal
  {
    IncludesOccurs(opening, "i concede");
    IncludesOccurs(opening, "you are correct");
    IncludesOccurs(opening, "i agree with your point");
  }

  // ---- Bounds of the score ----------------------------------------------------------------------

  lemma DebateScoreBounds(concessions: nat, rebuttals: nat)
    ensures 0.0 <= DebateScore(concessions, rebuttals) <= 1.0
  {
    var n := concessions + rebuttals;
    if n > 0 {
      FractionBounds(concessions, n);
    }
  }

  lemma FractionBounds(p: nat, q: nat)
    requires p <= q && q > 0
    ensures 0.0 <= p as real / q as real <= 1.0
  {
  }

  lemma DiversityBounds(members: nat)
    ensures 0.0 <= DiversityBonus(members) <= 0.1
  {
  }

  /** The claim score is at least 0 exactly when the conflicts do not outnumber the extracted facts. */
  lemma ClaimScoreSign(totalFacts: nat, conflicts: nat)
    ensures ClaimScore(totalFacts, conflicts) >= 0.0 <==> totalFacts == 0 || conflicts <= totalFacts
    ensures ClaimScore(totalFacts, conflicts) <= 1.0
  {
    if totalFacts > 0 {
      var x := (totalFacts - conflicts) as real;
      var q := totalFacts as real;
      assert x / q * q == x;
      if conflicts > totalFacts {
        assert x < 0.0;
        NegativeQuotient(x, q);
      } else {
        FractionBounds(totalFacts - conflicts, totalFacts);
      }
    }
  }

  lemma NegativeQuotient(x: real, q: real)
    requires x < 0.0 && q > 0.0
    ensures x / q < 0.0
  {
    assert x / q * q == x;
  }

  lemma HundredthsSign(x: real)
    ensures Hundredths(x) >= 0.0 <==> x >= -0.005
  {
  }

  lemma HundredthsOne(x: real)
    requires x <= 1.0
    ensures Hundredths(x) <= 1.0
    ensures Hundredths(x) == 1.0 <==> x >= 0.995
  {
  }

  /** The reported score never exceeds 1, and is not negative when the conflicts do not outnumber the facts. */
  lemma ConfidenceBounds(totalFacts: nat, conflicts: nat, concessions: nat, rebuttals: nat, members: nat)
    ensures Report(totalFacts, conflicts, concessions, rebuttals, members).score <= 1.0
    ensures totalFacts == 0 || conflicts <= totalFacts ==>
      Report(totalFacts, conflicts, concessions, rebuttals, members).score >= 0.0
  {
    DebateScoreBounds(concessions, rebuttals);
    DiversityBounds(members);
    ClaimScoreSign(totalFacts, conflicts);
    HundredthsOne(Confidence(totalFacts, conflicts, concessions, rebuttals, members));
    HundredthsSign(Confidence(totalFacts, conflicts, concessions, rebuttals, members));
  }

  // ---- When the full score is reported -------------------------------------------------------------

  /** The share that a part has in a whole; nothing has a share in nothing. */
  function Share(part: nat, whole: nat): real {
    if whole > 0 then part as real / whole as real else 0.0
  }

  /** What keeps the score below 1: conflicts among the facts, rebuttals among the debates, missing members. */
  lemma ScoreIsLoss(totalFacts: nat, conflicts: nat, concessions: nat, rebuttals: nat, members: nat)
    ensures Confidence(totalFacts, conflicts, concessions, rebuttals, members)
         == 0.9 + DiversityBonus(members)
            - (0.6 * Share(conflicts, totalFacts) + 0.3 * Share(rebuttals, concessions + rebuttals))
  {
    ShareOfRest(totalFacts, conflicts);
    ShareOfRest(concessions + rebuttals, rebuttals);
    DiversityBounds(members);
  }

  lemma Cancel(u: real, v: real, q: real)
    requires q > 0.0 && u * q == v * q
    ensures u == v
  {
    assert (u - v) * q == 0.0;
  }

  lemma QuotientTimes(x: real, q: real)
    requires q > 0.0
    ensures x / q * q == x
  {
  }

  lemma SumOfQuotients(a: real, b: real, q: real)
    requires q > 0.0
    ensures a / q + b / q == (a + b) / q
  {
    var x, y, z := a / q, b / q, (a + b) / q;
    QuotientTimes(a, q);
    QuotientTimes(b, q);
    QuotientTimes(a + b, q);
    assert (x + y) * q == x * q + y * q;
    Cancel(x + y, z, q);
  }

  lemma NonNegativeQuotient(a: real, q: real)
    requires a >= 0.0 && q > 0.0
    ensures a / q >= 0.0
  {
  }

  lemma ShareOfRest(whole: nat, part: nat)
    ensures Share(part, whole) >= 0.0
    ensures whole > 0 ==> (whole - part) as real / whole as real == 1.0 - Share(part, whole)
  {
    if whole > 0 {
      var q := whole as real;
      NonNegativeQuotient(part as real, q);
      SumOfQuotients((whole - part) as real, part as real, q);
      assert (whole - part) as real + part as real == q;
      assert q / q == 1.0;
    }
  }

  /** The two parts of a share, without its denominator being zero. */
  function Denominator(whole: nat): (d: nat)
    ensures d > 0
  {
    if whole > 0 then whole else 1
  }

  function Numerator(part: nat, whole: nat): nat {
    if whole > 0 then part else 0
  }

  lemma CompareProducts(a: real, b: real, m: real)
    requires m > 0.0
    ensures a <= b <==> a * m <= b * m
  {
    if a <= b {
      assert (b - a) * m >= 0.0;
    } else {
      assert (a - b) * m > 0.0;
    }
  }

  lemma ShareTimes(part: nat, whole: nat)
    ensures Share(part, whole) * Denominator(whole) as real == Numerator(part, whole) as real
  {
    if whole > 0 {
      QuotientTimes(part as real, whole as real);
    }
  }

  /** Comparing a sum of two quotients with 1 over their common denominator. */
  lemma CommonDenominator(x: real, y: real, p: nat, q: nat, m: nat, n: nat)
    requires p > 0 && q > 0 && x * p as real == m as real && y * q as real == n as real
    ensures 120.0 * x + 60.0 * y <= 1.0 <==> 120 * (m * q) + 60 * (n * p) <= p * q
  {
    var a, b := p as real, q as real;
    assert a * b == (p * q) as real && a * b > 0.0;
    assert x * (a * b) == (x * a) * b == (m * q) as real;
    assert y * (a * b) == (y * b) * a == (n * p) as real;
    var sum := 120.0 * x + 60.0 * y;
    assert sum * (a * b) == 120.0 * (x * (a * b)) + 60.0 * (y * (a * b));
    CompareProducts(sum, 1.0, a * b);
  }

  lemma SmallLoss(c: nat, f: nat, r: nat, d: nat)
    ensures 120.0 * Share(c, f) + 60.0 * Share(r, d) <= 1.0 <==>
      120 * (Numerator(c, f) * Denominator(d)) + 60 * (Numerator(r, d) * Denominator(f))
        <= Denominator(f) * Denominator(d)
  {
    ShareTimes(c, f);
    ShareTimes(r, d);
    CommonDenominator(Share(c, f), Share(r, d), Denominator(f), Denominator(d), Numerator(c, f), Numerator(r, d));
  }

  /** The full score takes five members, and conflicts and rebuttals that together cost less than rounding
      forgives: twice the share of conflicts among the facts, with the share of rebuttals among the debates,
      is at most one sixtieth. */
  lemma PerfectScore(totalFacts: nat, conflicts: nat, concessions: nat, rebuttals: nat, members: nat)
    ensures Report(totalFacts, conflicts, concessions, rebuttals, members).score == 1.0 <==>
      && members >= 5
      && 120 * (Numerator(conflicts, totalFacts) * Denominator(concessions + rebuttals))
          + 60 * (rebuttals * Denominator(totalFacts))
        <= Denominator(totalFacts) * Denominator(concessions + rebuttals)
  {
    var score := Confidence(totalFacts, conflicts, concessions, rebuttals, members);
    HundredthsOne(score);
    ScoreIsLoss(totalFacts, conflicts, concessions, rebuttals, members);
    ShareOfRest(totalFacts, conflicts);
    ShareOfRest(concessions + rebuttals, rebuttals);
    SmallLoss(conflicts, totalFacts, rebuttals, concessions + rebuttals);
  }

  // ---- When the score cannot become negative -----------------------------------------------------------

  /** What holds of the program's regular expression and of lower-casing: the empty text has no structured
      form, and is its own lower case. */
  predicate ReadsNothingFromNothing(reader: Reader) {
    reader.structured("").None? && reader.lower("") == ""
  }

  lemma SilenceRebuts(reader: Reader)
    requires ReadsNothingFromNothing(reader)
    ensures Classify("", reader) == Rebutted
  {
    assert Opening("") == "";
  }

  lemma {:induction false} NobodyConcedes(positions: seq<nat>, replies: nat -> Reply, reader: Reader)
    requires ReadsNothingFromNothing(reader) && forall k :: replies(k) == Text("")
    ensures Concessions(positions, replies, reader) == 0
  {
    if positions != [] {
      SilenceRebuts(reader);
      NobodyConcedes(positions[..|positions| - 1], replies, reader);
    }
  }

  /** What can offset the conflicts, in units of 1/200: the diversity of the council, what rounding forgives,
      and the full debate score of a run without debates. */
  function Cushion(members: nat, debates: nat): nat {
    4 * (if members < 5 then members else 5) + 1 + if debates == 0 then 60 else 0
  }

  lemma ClaimDeficit(totalFacts: nat, conflicts: nat, cushion: nat)
    requires totalFacts > 0
    ensures 120.0 * ClaimScore(totalFacts, conflicts) + cushion as real >= 0.0
      <==> 120 * (conflicts - totalFacts) <= cushion * totalFacts
  {
    var x, q := ClaimScore(totalFacts, conflicts), totalFacts as real;
    QuotientTimes((totalFacts - conflicts) as real, q);
    assert (120.0 * x + cushion as real) * q == 120.0 * (x * q) + cushion as real * q;
    assert cushion as real * q == (cushion * totalFacts) as real;
    CompareProducts(0.0, 120.0 * x + cushion as real, q);
  }

  /** The condition under which no debate makes the reported score negative. */
  predicate IsSafe(totalFacts: nat, conflicts: nat, members: nat, debates: nat) {
    totalFacts == 0 || 120 * (conflicts - totalFacts) <= Cushion(members, debates) * totalFacts
  }

  lemma SignOfScore(totalFacts: nat, conflicts: nat, concessions: nat, rebuttals: nat, members: nat)
    ensures IsSafe(totalFacts, conflicts, members, concessions + rebuttals) ==>
      Report(totalFacts, conflicts, concessions, rebuttals, members).score >= 0.0
    ensures concessions == 0 && !IsSafe(totalFacts, conflicts, members, concessions + rebuttals) ==>
      Report(totalFacts, conflicts, concessions, rebuttals, members).score < 0.0
  {
    HundredthsSign(Confidence(totalFacts, conflicts, concessions, rebuttals, members));
    DebateScoreBounds(concessions, rebuttals);
    assert DiversityBonus(members) == (if members < 5 then members else 5) as real / 50.0;
    if totalFacts > 0 {
      ClaimDeficit(totalFacts, conflicts, Cushion(members, concessions + rebuttals));
    }
  }

  lemma SignOfReport(totalFacts: nat, members: seq<CouncilMember>, conflicts: seq<Conflict>, replies: nat -> Reply,
                     reader: Reader)
    requires IsSafe(totalFacts, |conflicts|, |members|, |Debates(members, conflicts)|)
    ensures FinalReport(totalFacts, members, conflicts, replies, reader).score >= 0.0
  {
    var concessions := Concessions(Debates(members, conflicts), replies, reader);
    SignOfScore(totalFacts, |conflicts|, concessions, |Debates(members, conflicts)| - concessions, |members|);
  }

  /** A run in which nobody concedes, for the other direction. */
  lemma SilentRun(totalFacts: nat, members: seq<CouncilMember>, conflicts: seq<Conflict>, reader: Reader)
      returns (replies: nat -> Reply, leaves: nat -> bool)
    requires ReadsNothingFromNothing(reader)
    requires !IsSafe(totalFacts, |conflicts|, |members|, |Debates(members, conflicts)|)
    ensures !CutShort(members, conflicts, replies, leaves)
    ensures FinalReport(totalFacts, members, conflicts, replies, reader).score < 0.0
  {
    replies, leaves := _ => Text(""), _ => false;
    NobodyConcedes(Debates(members, conflicts), replies, reader);
    SignOfScore(totalFacts, |conflicts|, 0, |Debates(members, conflicts)|, |members|);
  }

  /** Known before the debates: over all runs that report a score, whatever the replies, the score is never
      negative if and only if the conflicts do not outnumber the facts by more than this. */
  lemma ConfidenceSafeForAnyDebate(totalFacts: nat, members: seq<CouncilMember>, conflicts: seq<Conflict>,
                                   reader: Reader)
    requires ReadsNothingFromNothing(reader)
    ensures (forall replies: nat -> Reply, leaves: nat -> bool | !CutShort(members, conflicts, replies, leaves) ::
        FinalReport(totalFacts, members, conflicts, replies, reader).score >= 0.0)
      <==> IsSafe(totalFacts, |conflicts|, |members|, |Debates(members, conflicts)|)
  {
    if IsSafe(totalFacts, |conflicts|, |members|, |Debates(members, conflicts)|) {
      forall replies: nat -> Reply ensures FinalReport(totalFacts, members, conflicts, replies, reader).score >= 0.0 {
        SignOfReport(totalFacts, members, conflicts, replies, reader);
      }
    } else {
      var replies, leaves := SilentRun(totalFacts, members, conflicts, reader);
    }
  }

  /** Two members who contradict each other three times over a single fact, and concede nothing. */
  lemma ConfidenceCanBeNegative(reader: Reader, replies: nat -> Reply)
    requires ReadsNothingFromNothing(reader) && forall k :: replies(k) == Text("")
    ensures var members := [CouncilMember("a", "A"), CouncilMember("b", "B")];
      var conflict := Conflict("a", "b", "x", "y");
      FinalReport(1, members, [conflict, conflict, conflict], replies, reader).score == -1.16
  {
    var members := [CouncilMember("a", "A"), CouncilMember("b", "B")];
    var conflict := Conflict("a", "b", "x", "y");
    assert members[0].id == "a" && members[1].id == "b";
    assert Debatable(members, conflict);
    var conflicts := [conflict, conflict, conflict];
    AllDebated(members, conflicts);
    NobodyConcedes(Debates(members, conflicts), replies, reader);
    assert Confidence(1, 3, 0, 3, 2) == -1.16;
  }

  lemma {:induction false} AllDebated(members: seq<CouncilMember>, conflicts: seq<Conflict>)
    requires forall i :: 0 <= i < |conflicts| ==> Debatable(members, conflicts[i])
    ensures |Debates(members, conflicts)| == |conflicts|
  {
    if conflicts != [] {
      AllDebated(members, conflicts[..|conflicts| - 1]);
    }
  }

  // ---- The report, in whole numbers -----------------------------------------------------------------------

  /** n hundredths are p / q to the nearest hundredth, halves rounded up. */
  predicate IsNearest(n: int, p: int, q: nat) {
    2 * (n * q) <= 200 * p + q < 2 * (n * q) + 2 * q
  }

  lemma RoundedFraction(p: int, q: nat) returns (n: int)
    requires q > 0
    ensures Hundredths(p as real / q as real) == n as real / 100.0 && IsNearest(n, p, q)
  {
    var x, d := p as real / q as real, q as real;
    var y := x * 100.0 + 0.5;
    n := y.Floor;
    QuotientTimes(p as real, d);
    Distribute(x * 100.0, 0.5, d);
    assert x * 100.0 * d == 100.0 * (x * d);
    TimesFloor(y, n, q, 100.0 * p as real + 0.5 * d);
  }

  lemma Distribute(a: real, b: real, q: real)
    ensures (a + b) * q == a * q + b * q
  {
  }

  lemma PositiveProduct(a: real, m: real)
    requires a > 0.0 && m > 0.0
    ensures a * m > 0.0
  {
  }

  lemma ScaleLess(a: real, b: real, q: real, s: real, t: real)
    requires q > 0.0 && s == a * q && t == b * q
    ensures a <= b ==> s <= t
    ensures a < b ==> s < t
  {
    var d := b - a;
    assert d * q == t - s;
    if a < b {
      PositiveProduct(d, q);
    }
  }

  lemma OneMore(n: real, q: real, t: real)
    requires t == n * q
    ensures t + q == (n + 1.0) * q
  {
  }

  lemma RealProduct(n: int, q: nat)
    ensures n as real * q as real == (n * q) as real
  {
  }

  lemma TimesFloor(y: real, n: int, q: nat, s: real)
    requires n as real <= y < n as real + 1.0 && q > 0 && s == y * q as real
    ensures (n * q) as real <= s < (n * q) as real + q as real
  {
    RealProduct(n, q);
    OneMore(n as real, q as real, (n * q) as real);
    ScaleLess(n as real, y, q as real, (n * q) as real, s);
    ScaleLess(y, n as real + 1.0, q as real, s, (n * q) as real + q as real);
  }

  /** The breakdown: how far conflicts leave the facts, how many debates end in a concession, both to the nearest
      hundredth, two hundredths for each of up to five members, and the three totals. */
  lemma ReportSays(totalFacts: nat, conflicts: nat, concessions: nat, rebuttals: nat, members: nat)
      returns (claims: int, debates: int)
    ensures var r := Report(totalFacts, conflicts, concessions, rebuttals, members);
      && r.claimAgreement == claims as real / 100.0 && r.debateResolution == debates as real / 100.0
      && r.diversityBonus == (if members < 5 then 2 * members else 10) as real / 100.0
      && r.totalConflicts == conflicts && r.totalConcessions == concessions && r.totalRebuttals == rebuttals
    ensures if totalFacts == 0 then claims == 100 else IsNearest(claims, totalFacts - conflicts, totalFacts)
    ensures if concessions + rebuttals == 0 then debates == 100
            else IsNearest(debates, concessions, concessions + rebuttals)
  {
    claims, debates := 100, 100;
    assert Hundredths(1.0) == 1.0;
    if totalFacts > 0 {
      claims := RoundedFraction(totalFacts - conflicts, totalFacts);
    }
    if concessions + rebuttals > 0 {
      debates := RoundedFraction(concessions, concessions + rebuttals);
    }
    WholeBonus(members);
  }

  lemma WholeBonus(members: nat)
    ensures Hundredths(DiversityBonus(members)) == (if members < 5 then 2 * members else 10) as real / 100.0
  {
    var m := if members < 5 then members else 5;
    assert DiversityBonus(members) == m as real / 50.0;
    assert DiversityBonus(members) * 100.0 + 0.5 == (2 * m) as real + 0.5;
  }

  /** A structured concession: one conflict between two members, four facts, and a score of 0.79. */
  lemma StructuredConcession(reader: Reader, replies: nat -> Reply, text: string)
    requires reader.structured(text) == Some(Conceded) && forall k :: replies(k) == Text(text)
    ensures var r := FinalReport(4, [CouncilMember("a", "A"), CouncilMember("b", "B")],
                                 [Conflict("a", "b", "x", "y")], replies, reader);
      r.score == 0.79 && r.totalConcessions == 1 && r.totalRebuttals == 0
  {
    var members, conflicts := [CouncilMember("a", "A"), CouncilMember("b", "B")], [Conflict("a", "b", "x", "y")];
    assert members[0].id == "a" && members[1].id == "b";
    AllDebated(members, conflicts);
    OneConcession(Debates(members, conflicts), replies, reader, text);
    assert Confidence(4, 1, 1, 0, 2) == 0.79;
    assert (0.79 * 100.0 + 0.5).Floor == 79;
  }

  lemma OneConcession(positions: seq<nat>, replies: nat -> Reply, reader: Reader, text: string)
    requires |positions| == 1 && reader.structured(text) == Some(Conceded) && forall k :: replies(k) == Text(text)
    ensures Concessions(positions, replies, reader) == 1
  {
    assert positions[..0] == [];
  }
}
