/** The live event feed (internal/api/sse.go): bounded per-client queues that drop rather than
    block. Each method is one critical section under the broker's lock. */
module Broker {
  const QUEUE_SIZE := 64

  /** a is what is left of b when some of its elements are struck out. */
  predicate Subsequence(a: seq<string>, b: seq<string>) {
    if a == [] then true
    else if b == [] then false
    else
      var m, n := |a| - 1, |b| - 1;
      (a[m] == b[n] && Subsequence(a[..m], b[..n])) || Subsequence(a, b[..n])
  }

  lemma {:induction false} PrefixOfSubsequence(a: seq<string>, b: seq<string>, k: nat)
    requires Subsequence(a, b) && k <= |a|
    ensures Subsequence(a[..k], b)
    decreases |b|, |a|
  {
    if k == |a| {
      assert a[..k] == a;
    } else if k > 0 {
      var m, n := |a| - 1, |b| - 1;
      assert a[..k] == a[..m][..k];
      if a[m] == b[n] && Subsequence(a[..m], b[..n]) {
        PrefixOfSubsequence(a[..m], b[..n], k);
      } else {
        PrefixOfSubsequence(a, b[..n], k);
      }
    }
  }

  /** A channel with its history: what was published while its client was subscribed, what the
      queue took of it and how much it did not, and what the client has read. */
  datatype Channel = Channel(
    queue: seq<string>, offered: seq<string>, accepted: seq<string>, received: seq<string>, dropped: nat)

  const FRESH := Channel([], [], [], [], 0)

  /** The queue is bounded, nothing it took is lost or reordered, and it took only what was
      offered, in that order, all but what it dropped. */
  predicate Sound(ch: Channel) {
    && |ch.queue| <= QUEUE_SIZE && ch.accepted == ch.received + ch.queue && Subsequence(ch.accepted, ch.offered)
    && |ch.offered| == |ch.accepted| + ch.dropped
  }

  /** A send that never waits: a full queue drops the message. */
  function Sent(ch: Channel, msg: string): Channel {
    var seen := ch.(offered := ch.offered + [msg]);
    if |ch.queue| < QUEUE_SIZE then seen.(queue := ch.queue + [msg], accepted := ch.accepted + [msg])
    else seen.(dropped := ch.dropped + 1)
  }

  lemma SentStaysSound(ch: Channel, msg: string)
    requires Sound(ch)
    ensures Sound(Sent(ch, msg))
  {
  }

  /** One message later: it waits behind the others, or was dropped because 64 of them wait. */
  predicate Receives(before: Channel, now: Channel, msg: string) {
    && now.received == before.received
    && (|before.queue| < 64 ==> now.queue == before.queue + [msg] && now.dropped == before.dropped)
    && (|before.queue| >= 64 ==> now.queue == before.queue && now.dropped == before.dropped + 1)
  }

  lemma SentIsReceived(ch: Channel, msg: string)
    ensures Receives(ch, Sent(ch, msg), msg)
  {
  }

  lemma SentIsOffered(ch: Channel, msg: string)
    ensures Sent(ch, msg).offered == ch.offered + [msg]
  {
  }

  lemma {:induction false} SubsequenceIsShorter(a: seq<string>, b: seq<string>)
    requires Subsequence(a, b)
    ensures |a| <= |b| && (|a| == |b| ==> a == b)
    decreases |b|
  {
    if a != [] {
      var m, n := |a| - 1, |b| - 1;
      if a[m] == b[n] && Subsequence(a[..m], b[..n]) {
        SubsequenceIsShorter(a[..m], b[..n]);
        assert a == a[..m] + [a[m]] && b == b[..n] + [b[n]];
      } else {
        SubsequenceIsShorter(a, b[..n]);
      }
    }
  }

  /** What a client has read is, in order, a subsequence of what was published while it was
      subscribed, however publishing and reading interleaved. */
  lemma ReceivedInOrder(ch: Channel)
    requires Sound(ch)
    ensures Subsequence(ch.received, ch.offered)
  {
    PrefixOfSubsequence(ch.accepted, ch.offered, |ch.received|);
    assert ch.accepted[..|ch.received|] == ch.received;
  }

  // ---- the history of a feed -------------------------------------------------------------

  datatype Operation = Subscribed(id: nat) | Unsubscribed(id: nat) | Published(msg: string)

  /** The client has subscribed and not left since. */
  predicate Open(log: seq<Operation>, id: nat) {
    if log == [] then false
    else
      var last := log[|log| - 1];
      if last == Subscribed(id) then true
      else if last == Unsubscribed(id) then false
      else Open(log[..|log| - 1], id)
  }

  /** What was published while the client was subscribed. */
  function PublishedTo(log: seq<Operation>, id: nat): seq<string> {
    if log == [] then []
    else
      var before, last := log[..|log| - 1], log[|log| - 1];
      if last.Published? && Open(before, id) then PublishedTo(before, id) + [last.msg] else PublishedTo(before, id)
  }

  lemma LogGrows(log: seq<Operation>, op: Operation, id: nat)
    ensures Open(log + [op], id) == (op == Subscribed(id) || (op != Unsubscribed(id) && Open(log, id)))
    ensures PublishedTo(log + [op], id)
      == if op.Published? && Open(log, id) then PublishedTo(log, id) + [op.msg] else PublishedTo(log, id)
  {
  }

  /** The broker and the channels it ever made: a client may still drain its own after leaving. */
  class Feed {
    var nextID: nat
    var clients: set<nat>
    var channels: map<nat, Channel>
    ghost var log: seq<Operation>

    ghost predicate Valid()
      reads this
    {
      && (forall id: nat :: id in clients <==> Open(log, id))
      && (forall id: nat :: if id in channels then channels[id].offered == PublishedTo(log, id) else PublishedTo(log, id) == [])
      && (forall id: nat :: id in channels <==> id < nextID)
      && clients <= channels.Keys
      && (forall id :: id in channels ==> Sound(channels[id]))
    }

    constructor ()
      ensures Valid() && clients == {} && channels == map[] && log == []
    {
      nextID, clients, channels, log := 0, {}, map[], [];
    }

    /** A new client gets an id no client has had before, and an empty queue. */
    method Subscribe() returns (id: nat)
      requires Valid()
      modifies this
      ensures Valid() && id !in old(channels)
      ensures clients == old(clients) + {id} && channels == old(channels)[id := FRESH]
      ensures log == old(log) + [Subscribed(id)]
    {
      forall i: nat { LogGrows(log, Subscribed(nextID), i); }
      log := log + [Subscribed(nextID)];
      id := nextID;
      nextID := nextID + 1;
      channels := channels[id := FRESH];
      clients := clients + {id};
    }

    method Unsubscribe(id: nat)
      requires Valid()
      modifies this
      ensures Valid() && clients == old(clients) - {id} && channels == old(channels)
      ensures log == old(log) + [Unsubscribed(id)]
    {
      forall i: nat { LogGrows(log, Unsubscribed(id), i); }
      log := log + [Unsubscribed(id)];
      clients := clients - {id};
    }

    /** The sends of one publication, client by client; none of them waits. */
    method SendAll(msg: string)
      requires clients <= channels.Keys && forall id :: id in channels ==> Sound(channels[id])
      modifies this`channels
      ensures channels.Keys == old(channels.Keys) && forall id :: id in channels ==> Sound(channels[id])
      ensures forall id :: id in clients ==> channels[id] == Sent(old(channels)[id], msg)
      ensures forall id :: id in channels && id !in clients ==> channels[id] == old(channels)[id]
    {
      hide Sound, Sent;
      var ids := clients;
      while ids != {}
        invariant ids <= clients && channels.Keys == old(channels.Keys)
        invariant forall id :: id in channels ==> Sound(channels[id])
        invariant forall id :: id in clients - ids ==> channels[id] == Sent(old(channels)[id], msg)
        invariant forall id :: id in channels && id !in clients - ids ==> channels[id] == old(channels)[id]
        decreases |ids|
      {
        var id :| id in ids;
        SentStaysSound(channels[id], msg);
        channels := channels[id := Sent(channels[id], msg)];
        ids := ids - {id};
      }
    }

    /** Offers the message to every subscriber and returns: nobody's full queue holds it up. */
    method Publish(msg: string)
      requires Valid()
      modifies this
      ensures Valid() && clients == old(clients) && channels.Keys == old(channels.Keys)
      ensures forall id :: id in clients ==> channels[id] == Sent(old(channels)[id], msg)
      ensures forall id :: id in clients ==> Receives(old(channels)[id], channels[id], msg)
      ensures forall id :: id in channels && id !in clients ==> channels[id] == old(channels)[id]
      ensures log == old(log) + [Published(msg)]
    {
      hide Sound, Sent, Open, PublishedTo, Receives;
      SendAll(msg);
      forall id | id in clients ensures Receives(old(channels)[id], channels[id], msg) {
        SentIsReceived(old(channels)[id], msg);
      }
      forall i: nat { LogGrows(log, Published(msg), i); }
      forall id | id in clients ensures channels[id].offered == old(channels)[id].offered + [msg] {
        SentIsOffered(old(channels)[id], msg);
      }
      log := log + [Published(msg)];
    }

    /** A client takes the oldest message of its queue, if there is one. */
    method Receive(id: nat) returns (msg: string, ok: bool)
      requires Valid() && id in channels
      modifies this`channels
      ensures Valid() && ok == (old(channels)[id].queue != []) && channels.Keys == old(channels.Keys)
      ensures forall i :: i in channels && i != id ==> channels[i] == old(channels)[i]
      ensures !ok ==> channels == old(channels)
      ensures ok ==> old(channels)[id].queue == [msg] + channels[id].queue
      ensures ok ==> channels[id].received == old(channels)[id].received + [msg]
    {
      hide Open, PublishedTo, Subsequence;
      var ch := channels[id];
      if ch.queue == [] {
        return "", false;
      }
      msg, ok := ch.queue[0], true;
      var next := ch.(queue := ch.queue[1..], received := ch.received + [msg]);
      assert next.received + next.queue == ch.received + ch.queue;
      channels := channels[id := next];
    }
  }

  /** At any moment of any history, each client - gone or not - has read, in order, a subsequence
      of what was published while it was subscribed, and at most 64 messages wait for it. What it
      neither read nor has waiting was dropped, and if nothing was, it has read all but what waits. */
  lemma FeedDelivers(feed: Feed, id: nat)
    requires feed.Valid() && id in feed.channels
    ensures var ch, published := feed.channels[id], PublishedTo(feed.log, id);
      && Subsequence(ch.received, published) && |ch.queue| <= 64
      && |published| == |ch.received| + |ch.queue| + ch.dropped
      && (ch.dropped == 0 ==> published == ch.received + ch.queue)
  {
    hide Subsequence;
    ReceivedInOrder(feed.channels[id]);
    SubsequenceIsShorter(feed.channels[id].accepted, feed.channels[id].offered);
  }
}
