/** The agents' message bus: bounded inboxes and a bounded log, against the full history. */
module MessageBus {
  import opened Sequences

  const MAX_MESSAGES: nat := 500
  const MAX_INBOX_SIZE: nat := 200

  datatype MessageType = Critique | Question | Answer | FactNote | Rebuttal | Concession

  /** The random id and the time stamp of a message. */
  datatype Stamp = Stamp(id: string, timestamp: int)

  datatype Message = Message(stamp: Stamp, from: string, to: string, content: string, kind: MessageType)

  datatype Status = Idle | Thinking | Responding | Debating

  datatype AgentState = AgentState(id: string, name: string, status: Status)

  /** A subscribed callback; it is known only by the calls it receives. */
  type Handler = nat

  datatype Call = Call(handler: Handler, message: Message)

  // ---- Bounded views of a history ------------------------------------------------

  function LastOf<T>(n: nat, s: seq<T>): seq<T> {
    if |s| <= n then s else s[|s| - n..]
  }

  /** The last n entries, in order. */
  lemma LastOfAt<T>(n: nat, s: seq<T>, i: nat)
    requires i < |LastOf(n, s)|
    ensures |LastOf(n, s)| == if |s| <= n then |s| else n
    ensures LastOf(n, s)[i] == s[|s| - |LastOf(n, s)| + i]
  {
  }

  /** Dropping the oldest entry of a full list before pushing; the method Push does this. */
  function PushBounded<T>(n: nat, s: seq<T>, x: T): seq<T> {
    (if |s| >= n && s != [] then s[1..] else s) + [x]
  }

  lemma PushKeepsLast<T>(n: nat, history: seq<T>, x: T)
    requires n > 0
    ensures PushBounded(n, LastOf(n, history), x) == LastOf(n, history + [x])
  {
  }

  // ---- Messages of a broadcast ----------------------------------------------------

  /** The other agents, in registration order. */
  function Others(order: seq<string>, from: string): seq<string> {
    if order == [] then []
    else
      var n := |order| - 1;
      Others(order[..n], from) + if order[n] != from then [order[n]] else []
  }

  /** One message for each recipient; the i-th gets the i-th stamp. */
  function BroadcastMessages(recipients: seq<string>, from: string, content: string, kind: MessageType,
                             stamps: nat -> Stamp): (messages: seq<Message>)
    ensures |messages| == |recipients|
    ensures forall i :: 0 <= i < |recipients| ==>
      messages[i] == Message(stamps(i), from, recipients[i], content, kind)
  {
    seq(|recipients|, i requires 0 <= i < |recipients| => Message(stamps(i), from, recipients[i], content, kind))
  }

  /** The messages addressed to an agent. */
  function AddressedTo(messages: seq<Message>, id: string): seq<Message> {
    if messages == [] then []
    else
      var n := |messages| - 1;
      AddressedTo(messages[..n], id) + if messages[n].to == id then [messages[n]] else []
  }

  // ---- The program -----------------------------------------------------------------

  ghost predicate RegistryOk(order: seq<string>, agents: map<string, AgentState>) {
    Distinct(order) && forall id :: id in order <==> id in agents
  }

  /** Each inbox holds the last messages delivered to it. */
  ghost predicate InboxesRecent(inboxes: map<string, seq<Message>>, delivered: map<string, seq<Message>>) {
    && inboxes.Keys == delivered.Keys
    && forall id :: id in inboxes && id in delivered ==> inboxes[id] == LastOf(MAX_INBOX_SIZE, delivered[id])
  }

  /** The agents after one changed its status; unknown ids change nothing. */
  function WithStatus(agents: map<string, AgentState>, id: string, status: Status): map<string, AgentState> {
    if id in agents then agents[id := agents[id].(status := status)] else agents
  }

  /** The handlers subscribed to an address, and their calls for one message and for several. */
  function SubscribersOf(subscribers: map<string, seq<Handler>>, id: string): seq<Handler> {
    if id in subscribers then subscribers[id] else []
  }

  function CallsTo(subs: seq<Handler>, msg: Message): (calls: seq<Call>)
    ensures |calls| == |subs| && forall i :: 0 <= i < |subs| ==> calls[i] == Call(subs[i], msg)
  {
    seq(|subs|, i requires 0 <= i < |subs| => Call(subs[i], msg))
  }

  /** One message calls each handler subscribed to the address once, in order of subscription. */
  lemma HandlersCalled(subscribers: map<string, seq<Handler>>, id: string, msg: Message)
    ensures id in subscribers ==> |CallsTo(SubscribersOf(subscribers, id), msg)| == |subscribers[id]|
    ensures id in subscribers ==> forall i :: 0 <= i < |subscribers[id]| ==>
      CallsTo(SubscribersOf(subscribers, id), msg)[i] == Call(subscribers[id][i], msg)
    ensures id !in subscribers ==> CallsTo(SubscribersOf(subscribers, id), msg) == []
  {
  }

  function CallsForAll(subscribers: map<string, seq<Handler>>, messages: seq<Message>): seq<Call> {
    if messages == [] then []
    else
      var n := |messages| - 1;
      CallsForAll(subscribers, messages[..n]) + CallsTo(SubscribersOf(subscribers, messages[n].to), messages[n])
  }

  /** The history of deliveries after one more message. */
  function Deliver(delivered: map<string, seq<Message>>, msg: Message): map<string, seq<Message>> {
    if msg.to in delivered then delivered[msg.to := delivered[msg.to] + [msg]] else delivered
  }

  class AgentMessageBus {
    /** The agents map: its keys in insertion order, and its entries. */
    var order: seq<string>
    var agents: map<string, AgentState>
    var inboxes: map<string, seq<Message>>
    var subscribers: map<string, seq<Handler>>
    var allMessages: seq<Message>
    /** The calls the subscribed handlers have received. */
    var calls: seq<Call>

    /** Everything delivered to an inbox since it was created or cleared, and every message accepted since the
        last reset. */
    ghost var delivered: map<string, seq<Message>>
    ghost var accepted: seq<Message>

    ghost predicate Valid()
      reads this
    {
      && RegistryOk(order, agents)
      && agents.Keys <= inboxes.Keys
      && InboxesRecent(inboxes, delivered)
      && allMessages == LastOf(MAX_MESSAGES, accepted)
    }

    ghost predicate IsEmpty()
      reads this
    {
      && order == [] && agents == map[] && inboxes == map[] && subscribers == map[] && allMessages == []
      && delivered == map[] && accepted == []
    }

    constructor ()
      ensures Valid() && IsEmpty() && calls == []
    {
      order, agents, inboxes, subscribers, allMessages, calls := [], map[], map[], map[], [], [];
      delivered, accepted := map[], [];
    }

    method RegisterAgent(id: string, name: string)
      requires Valid()
      modifies this`order, this`agents, this`inboxes, this`delivered
      ensures Valid()
      ensures order == if id in old(order) then old(order) else old(order) + [id]
      ensures agents == old(agents)[id := AgentState(id, name, Idle)]
      ensures delivered == old(delivered)[id := []]
    {
      if id !in agents {
        order := order + [id];
      }
      agents := agents[id := AgentState(id, name, Idle)];
      inboxes := inboxes[id := []];
      delivered := delivered[id := []];
    }

    method UnregisterAgent(id: string)
      requires Valid()
      modifies this`order, this`agents, this`inboxes, this`subscribers, this`delivered
      ensures Valid()
      ensures agents == old(agents) - {id} && delivered == old(delivered) - {id}
      ensures subscribers == old(subscribers) - {id}
      ensures order == Others(old(order), id)
    {
      OthersOf(order, id);
      order := Others(order, id);
      agents := agents - {id};
      inboxes := inboxes - {id};
      subscribers := subscribers - {id};
      delivered := delivered - {id};
    }

    method SetAgentStatus(id: string, status: Status)
      requires Valid()
      modifies this`agents
      ensures Valid()
      ensures agents == WithStatus(old(agents), id, status)
      ensures id in old(agents) ==>
        agents == old(agents)[id := AgentState(old(agents)[id].id, old(agents)[id].name, status)]
      ensures id !in old(agents) ==> agents == old(agents)
    {
      if id in agents {
        agents := agents[id := agents[id].(status := status)];
      }
    }

    /** Whether a message to this address is accepted. */
    predicate Accepts(to: string)
      reads this
    {
      to == "all" || to in agents
    }

    /** Pushing to a capped list, as the inboxes and the log do. */
    static method Push(list: seq<Message>, cap: nat, msg: Message) returns (longer: seq<Message>)
      requires cap > 0
      ensures longer == PushBounded(cap, list, msg)
    {
      longer := list;
      if |longer| >= cap {
        longer := longer[1..];
      }
      longer := longer + [msg];
    }

    /** Delivery to the inbox, with its size cap. */
    method PutInInbox(msg: Message)
      requires InboxesRecent(inboxes, delivered)
      modifies this`inboxes, this`delivered
      ensures InboxesRecent(inboxes, delivered) && inboxes.Keys == old(inboxes).Keys
      ensures delivered == Deliver(old(delivered), msg)
    {
      if msg.to in inboxes {
        var inbox := Push(inboxes[msg.to], MAX_INBOX_SIZE, msg);
        OneInboxMore(inboxes, delivered, msg);
        inboxes := inboxes[msg.to := inbox];
        delivered := Deliver(delivered, msg);
      }
    }

    /** The handlers subscribed to the address, from a snapshot of the list. */
    method Notify(msg: Message)
      modifies this`calls
      ensures calls == old(calls) + CallsTo(SubscribersOf(subscribers, msg.to), msg)
    {
      var subs := if msg.to in subscribers then subscribers[msg.to] else [];
      for i := 0 to |subs|
        invariant calls == old(calls) + CallsTo(subs, msg)[..i]
      {
        calls := calls + [Call(subs[i], msg)];
      }
    }

    method Log(msg: Message)
      requires allMessages == LastOf(MAX_MESSAGES, accepted)
      modifies this`allMessages, this`accepted
      ensures allMessages == LastOf(MAX_MESSAGES, accepted) && accepted == old(accepted) + [msg]
    {
      PushKeepsLast(MAX_MESSAGES, accepted, msg);
      allMessages := Push(allMessages, MAX_MESSAGES, msg);
      accepted := accepted + [msg];
    }

    method SendMessage(from: string, to: string, content: string, kind: MessageType, stamp: Stamp)
        returns (msg: Message)
      requires Valid()
      modifies this`inboxes, this`allMessages, this`calls, this`delivered, this`accepted
      ensures Valid() && msg == Message(stamp, from, to, content, kind)
      ensures !Accepts(to) ==> inboxes == old(inboxes) && allMessages == old(allMessages) && calls == old(calls)
      ensures !Accepts(to) ==> delivered == old(delivered) && accepted == old(accepted)
      ensures Accepts(to) ==> accepted == old(accepted) + [msg] && delivered == Deliver(old(delivered), msg)
      ensures Accepts(to) ==> calls == old(calls) + CallsTo(SubscribersOf(subscribers, to), msg)
    {
      msg := Message(stamp, from, to, content, kind);
      if to != "all" && to !in agents {
        return;
      }
      PutInInbox(msg);
      Notify(msg);
      Log(msg);
    }

    /** What sending some messages has added to the log, the inboxes and the calls. */
    ghost predicate HasSent(log: seq<Message>, before: map<string, seq<Message>>, called: seq<Call>,
                            messages: seq<Message>)
      reads this
    {
      && accepted == log + messages
      && Grown(before, messages, delivered)
      && calls == called + CallsForAll(subscribers, messages)
    }

    /** One turn of the broadcast loop. */
    method SendTo(agentId: string, from: string, content: string, kind: MessageType, stamp: Stamp, sent: seq<Message>,
                  ghost log: seq<Message>, ghost before: map<string, seq<Message>>, ghost called: seq<Call>)
        returns (messages: seq<Message>)
      requires Valid() && agentId in agents && HasSent(log, before, called, sent)
      modifies this`inboxes, this`allMessages, this`calls, this`delivered, this`accepted
      ensures Valid() && messages == sent + [Message(stamp, from, agentId, content, kind)]
      ensures HasSent(log, before, called, messages)
    {
      ghost var next := Message(stamp, from, agentId, content, kind);
      GrownByOne(before, sent, delivered, next);
      CalledOnceMore(subscribers, sent, next, called);
      Regroup(log, sent, [next]);
      var message := SendMessage(from, agentId, content, kind, stamp);
      messages := sent + [message];
    }

    method BroadcastMessage(from: string, content: string, kind: MessageType, stamps: nat -> Stamp)
        returns (messages: seq<Message>)
      requires Valid()
      modifies this`inboxes, this`allMessages, this`calls, this`delivered, this`accepted
      ensures Valid()
      ensures messages == BroadcastMessages(Others(order, from), from, content, kind, stamps)
      ensures accepted == old(accepted) + messages
      ensures Grown(old(delivered), messages, delivered)
      ensures calls == old(calls) + CallsForAll(subscribers, messages)
    {
      messages := [];
      NothingGrown(delivered);
      for i := 0 to |order|
        invariant Valid() && HasSent(old(accepted), old(delivered), old(calls), messages)
        invariant messages == BroadcastMessages(Others(order[..i], from), from, content, kind, stamps)
      {
        var agentId := order[i];
        OthersNext(order, i, from);
        if agentId != from {
          RecipientsAppend(Others(order[..i], from), agentId, from, content, kind, stamps);
          messages := SendTo(agentId, from, content, kind, stamps(|messages|), messages,
                             old(accepted), old(delivered), old(calls));
        }
      }
      assert order[..|order|] == order;
    }

    method Subscribe(agentId: string, handler: Handler)
      requires Valid()
      modifies this`subscribers
      ensures Valid()
      ensures subscribers == old(subscribers)[agentId := SubscribersOf(old(subscribers), agentId) + [handler]]
    {
      var subs := if agentId in subscribers then subscribers[agentId] else [];
      subscribers := subscribers[agentId := subs + [handler]];
    }

    method GetInbox(agentId: string) returns (inbox: seq<Message>)
      requires Valid()
      ensures inbox == if agentId in delivered then LastOf(200, delivered[agentId]) else []
    {
      inbox := if agentId in inboxes then inboxes[agentId] else [];
    }

    /** This creates an inbox for an id that has none, registered or not. */
    method ClearInbox(agentId: string)
      requires Valid()
      modifies this`inboxes, this`delivered
      ensures Valid() && delivered == old(delivered)[agentId := []]
    {
      inboxes := inboxes[agentId := []];
      delivered := delivered[agentId := []];
    }

    method Reset()
      modifies this`order, this`agents, this`inboxes, this`subscribers, this`allMessages, this`delivered, this`accepted
      ensures Valid() && IsEmpty()
    {
      order, agents, inboxes, subscribers, allMessages := [], map[], map[], map[], [];
      delivered, accepted := map[], [];
    }
  }

  /** What each inbox has received in addition. */
  ghost predicate Grown(before: map<string, seq<Message>>, messages: seq<Message>, after: map<string, seq<Message>>) {
    && after.Keys == before.Keys
    && forall id :: id in before && id in after ==> after[id] == before[id] + AddressedTo(messages, id)
  }

  lemma NothingGrown(delivered: map<string, seq<Message>>)
    ensures Grown(delivered, [], delivered)
  {
  }

  lemma GrownByOne(before: map<string, seq<Message>>, messages: seq<Message>, middle: map<string, seq<Message>>,
                   m: Message)
    requires Grown(before, messages, middle)
    ensures Grown(before, messages + [m], Deliver(middle, m))
  {
  }

  lemma OneInboxMore(inboxes: map<string, seq<Message>>, delivered: map<string, seq<Message>>, msg: Message)
    requires InboxesRecent(inboxes, delivered) && msg.to in inboxes
    ensures InboxesRecent(inboxes[msg.to := PushBounded(MAX_INBOX_SIZE, inboxes[msg.to], msg)], Deliver(delivered, msg))
  {
    PushKeepsLast(MAX_INBOX_SIZE, delivered[msg.to], msg);
  }

  lemma CalledOnceMore(subscribers: map<string, seq<Handler>>, messages: seq<Message>, m: Message, called: seq<Call>)
    ensures called + CallsForAll(subscribers, messages + [m])
         == (called + CallsForAll(subscribers, messages)) + CallsTo(SubscribersOf(subscribers, m.to), m)
  {
    assert (messages + [m])[..|messages|] == messages;
  }

  lemma OthersNext(order: seq<string>, i: nat, from: string)
    requires i < |order|
    ensures order[i] in order
    ensures order[i] == from ==> Others(order[..i + 1], from) == Others(order[..i], from)
    ensures order[i] != from ==> Others(order[..i + 1], from) == Others(order[..i], from) + [order[i]]
  {
    assert order[..i + 1][..i] == order[..i];
  }

  lemma RecipientsAppend(recipients: seq<string>, last: string, from: string, content: string, kind: MessageType,
                         stamps: nat -> Stamp)
    ensures BroadcastMessages(recipients + [last], from, content, kind, stamps) ==
      BroadcastMessages(recipients, from, content, kind, stamps)
        + [Message(stamps(|recipients|), from, last, content, kind)]
  {
  }

  lemma AddressedAppend(messages: seq<Message>, m: Message, id: string)
    ensures AddressedTo(messages + [m], id) ==
      if m.to == id then AddressedTo(messages, id) + [m] else AddressedTo(messages, id)
  {
  }

  lemma {:induction false} OthersOf(order: seq<string>, from: string)
    requires Distinct(order)
    ensures forall id :: id in Others(order, from) <==> id in order && id != from
    ensures Distinct(Others(order, from))
  {
    if order != [] {
      var n := |order| - 1;
      OthersOf(order[..n], from);
      var earlier := Others(order[..n], from);
      assert forall id :: id in order <==> id in order[..n] || id == order[n];
      assert order[n] !in earlier;
      assert earlier + [] == earlier;
    }
  }

  /** A broadcast reaches every other agent exactly once, and nobody else. */
  lemma BroadcastReachesOthersOnce(order: seq<string>, from: string, content: string, kind: MessageType,
                                   stamps: nat -> Stamp, id: string)
    requires Distinct(order)
    ensures |AddressedTo(BroadcastMessages(Others(order, from), from, content, kind, stamps), id)| ==
      if id in order && id != from then 1 else 0
  {
    OthersOf(order, from);
    OneForEach(Others(order, from), from, content, kind, stamps, id);
  }

  lemma OneMoreRecipient(recipients: seq<string>, last: string, from: string, content: string, kind: MessageType,
                         stamps: nat -> Stamp, id: string)
    ensures |AddressedTo(BroadcastMessages(recipients + [last], from, content, kind, stamps), id)| ==
      |AddressedTo(BroadcastMessages(recipients, from, content, kind, stamps), id)| + if last == id then 1 else 0
  {
    RecipientsAppend(recipients, last, from, content, kind, stamps);
    AddressedAppend(BroadcastMessages(recipients, from, content, kind, stamps),
                    Message(stamps(|recipients|), from, last, content, kind), id);
  }

  lemma {:induction false} OneForEach(recipients: seq<string>, from: string, content: string, kind: MessageType,
                                      stamps: nat -> Stamp, id: string)
    requires Distinct(recipients)
    ensures |AddressedTo(BroadcastMessages(recipients, from, content, kind, stamps), id)| ==
      if id in recipients then 1 else 0
  {
    if recipients != [] {
      var rest, last := recipients[..|recipients| - 1], recipients[|recipients| - 1];
      assert recipients == rest + [last];
      assert last !in rest;
      OneForEach(rest, from, content, kind, stamps, id);
      OneMoreRecipient(rest, last, from, content, kind, stamps, id);
    }
  }

  // ---- Bounded runs against unbounded ones ------------------------------------------------

  /** What a list becomes under several pushes, each as the method Push performs it. */
  function PushAll<T>(n: nat, s: seq<T>, xs: seq<T>): seq<T>
    decreases |xs|
  {
    if xs == [] then s else PushAll(n, PushBounded(n, s, xs[0]), xs[1..])
  }

  /** After any number of pushes a bounded list is the end of the full history. */
  lemma {:induction false} BoundedListIsRecentHistory<T>(n: nat, history: seq<T>, xs: seq<T>)
    requires n > 0
    ensures PushAll(n, LastOf(n, history), xs) == LastOf(n, history + xs)
    ensures |PushAll(n, LastOf(n, history), xs)| <= n
    decreases |xs|
  {
    if xs == [] {
      assert history + xs == history;
    } else {
      PushKeepsLast(n, history, xs[0]);
      BoundedListIsRecentHistory(n, history + [xs[0]], xs[1..]);
      assert (history + [xs[0]]) + xs[1..] == history + xs;
    }
  }
}
