/**
  * Messages under way between ranks.  A channel holds the messages from one rank to another under
  * one tag, in the order sent (section 3.5 of MPI-1.1).
  */
module Mpi {
  datatype Channel = Channel(src: nat, dst: nat, tag: nat)

  datatype Message = Bytes(len: nat) | Word(value: nat)

  type Net = map<Channel, seq<Message>>

  function At(net: Net, ch: Channel): seq<Message> {
    if ch in net then net[ch] else []
  }

  function Send(net: Net, ch: Channel, m: Message): Net {
    net[ch := At(net, ch) + [m]]
  }

  function Receive(net: Net, ch: Channel): Net
    requires At(net, ch) != []
  {
    net[ch := At(net, ch)[1..]]
  }

  /** What MPI_Get_count reports; a control word is an unsigned long. */
  function Length(m: Message): nat {
    match m
    case Bytes(len) => len
    case Word(_) => 8
  }

  lemma AtSend(net: Net, ch: Channel, m: Message, x: Channel)
    ensures At(Send(net, ch, m), x) == if x == ch then At(net, ch) + [m] else At(net, x)
  {}

  lemma AtReceive(net: Net, ch: Channel, x: Channel)
    requires At(net, ch) != []
    ensures At(Receive(net, ch), x) == if x == ch then At(net, ch)[1..] else At(net, x)
  {}

  /** The two nets differ at most under one tag. */
  ghost predicate SameBut(a: Net, b: Net, tag: nat) {
    forall x: Channel | x.tag != tag :: At(b, x) == At(a, x)
  }

  lemma SentUnder(net: Net, ch: Channel, m: Message)
    ensures SameBut(net, net, ch.tag) && SameBut(net, Send(net, ch, m), ch.tag)
  {}

  lemma ReceivedUnder(net: Net, ch: Channel)
    requires At(net, ch) != []
    ensures SameBut(net, Receive(net, ch), ch.tag)
  {}

  /** Nothing is under way under the tag. */
  ghost predicate NoneUnder(net: Net, tag: nat) {
    forall x: Channel | x.tag == tag :: At(net, x) == []
  }

  /** The channel holds that one message, and nothing else is under way under its tag. */
  ghost predicate Alone(net: Net, ch: Channel, m: Message) {
    forall x: Channel | x.tag == ch.tag :: At(net, x) == if x == ch then [m] else []
  }

  lemma Sent(net: Net, ch: Channel, m: Message)
    requires NoneUnder(net, ch.tag)
    ensures Alone(Send(net, ch, m), ch, m) && SameBut(net, Send(net, ch, m), ch.tag)
  {}

  lemma Received(net: Net, ch: Channel, m: Message)
    requires Alone(net, ch, m)
    ensures At(net, ch) == [m]
    ensures NoneUnder(Receive(net, ch), ch.tag) && SameBut(net, Receive(net, ch), ch.tag)
  {}
}
