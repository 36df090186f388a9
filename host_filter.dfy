/**
 * The host side of the scraper (`onNewChatMessage` in youtubeChat.js): every
 * message the page forwards is checked against `seenMessages`; a new id is
 * recorded and its author and text are sent to the hub as a `youtube_chat`
 * event, without the id.
 */
module HostFilter {
  import opened Wrappers
  import opened PageScan
  import Relay

  /** The ids that have arrived so far. */
  function ArrivedIds(arrivals: seq<ChatNode>): set<string> {
    set n | n in arrivals :: n.id
  }

  /** Arrival `k` is the first to carry its id. */
  predicate FirstArrival(arrivals: seq<ChatNode>, k: int)
    requires 0 <= k < |arrivals|
  {
    forall j :: 0 <= j < k ==> arrivals[j].id != arrivals[k].id
  }

  /** The arrivals the host relays: the first arrival of each id, in arrival order. */
  function Relayed(arrivals: seq<ChatNode>): (out: seq<ChatNode>)
    ensures forall n :: n in out ==> n in arrivals
    decreases |arrivals|
  {
    if arrivals == [] then []
    else
      var k := |arrivals| - 1;
      Relayed(arrivals[..k]) + (if FirstArrival(arrivals, k) then [arrivals[k]] else [])
  }

  /** The `youtube_chat` payload for a message: author and text; the id is dropped. */
  function Payload(msg: ChatNode): (e: Relay.Event)
    ensures e.YoutubeChat? && e.user == msg.author && e.text == msg.text
  {
    Relay.YoutubeChat(msg.author, msg.text)
  }

  lemma ArrivalStep(arrivals: seq<ChatNode>, k: int)
    requires 0 <= k < |arrivals|
    ensures ArrivedIds(arrivals[..k + 1]) == ArrivedIds(arrivals[..k]) + {arrivals[k].id}
    ensures FirstArrival(arrivals, k) <==> arrivals[k].id !in ArrivedIds(arrivals[..k])
  {
    var prefix := arrivals[..k + 1];
    assert prefix == arrivals[..k] + [arrivals[k]];
    if arrivals[k].id in ArrivedIds(arrivals[..k]) {
      var m :| m in arrivals[..k] && m.id == arrivals[k].id;
      var j :| 0 <= j < k && arrivals[..k][j] == m;
      assert arrivals[j].id == arrivals[k].id;
    }
    forall j | 0 <= j < k && arrivals[j].id == arrivals[k].id
      ensures arrivals[k].id in ArrivedIds(arrivals[..k])
    {
      assert arrivals[..k][j] == arrivals[j];
    }
  }

  /**
   * At most one `youtube_chat` per id over the host's lifetime, and exactly one
   * for each distinct id that arrived.
   */
  lemma RelayedOncePerId(arrivals: seq<ChatNode>)
    ensures DistinctIds(Relayed(arrivals))
    ensures ArrivedIds(Relayed(arrivals)) == ArrivedIds(arrivals)
    ensures |Relayed(arrivals)| == |ArrivedIds(arrivals)|
  {
    RelayedIdsDistinct(arrivals);
    RelayedCoversArrivals(arrivals);
    DistinctIdsCount(Relayed(arrivals));
  }

  lemma {:induction false} RelayedIdsDistinct(arrivals: seq<ChatNode>)
    ensures DistinctIds(Relayed(arrivals))
    decreases |arrivals|
  {
    if arrivals != [] {
      var k := |arrivals| - 1;
      var before := Relayed(arrivals[..k]);
      RelayedIdsDistinct(arrivals[..k]);
      if FirstArrival(arrivals, k) {
        forall a | 0 <= a < |before| ensures before[a].id != arrivals[k].id {
          assert before[a] in before;
          var j :| 0 <= j < k && arrivals[..k][j] == before[a];
        }
      }
    }
  }

  lemma {:induction false} RelayedCoversArrivals(arrivals: seq<ChatNode>)
    ensures ArrivedIds(Relayed(arrivals)) == ArrivedIds(arrivals)
    decreases |arrivals|
  {
    if arrivals != [] {
      var k := |arrivals| - 1;
      var before := Relayed(arrivals[..k]);
      var out := Relayed(arrivals);
      RelayedCoversArrivals(arrivals[..k]);
      ArrivalStep(arrivals, k);
      assert arrivals[..k + 1] == arrivals;
      if FirstArrival(arrivals, k) {
        assert out == before + [arrivals[k]];
        assert ArrivedIds(out) == ArrivedIds(before) + {arrivals[k].id} by {
          forall n | n in out ensures n in before || n == arrivals[k] { }
          forall n | n in before ensures n in out { }
        }
      } else {
        assert out == before;
      }
    }
  }

  /** A list whose ids are distinct has as many ids as elements. */
  lemma {:induction false} DistinctIdsCount(s: seq<ChatNode>)
    requires DistinctIds(s)
    ensures |ArrivedIds(s)| == |s|
    decreases |s|
  {
    if s != [] {
      var k := |s| - 1;
      DistinctIdsCount(s[..k]);
      ArrivalStep(s, k);
      assert s[..k + 1] == s;
      assert s[k].id !in ArrivedIds(s[..k]);
    }
  }

  /**
   * When the arriving messages already carry distinct ids, as the page's
   * forwards do, the host relays every one of them.
   */
  lemma {:induction false} RelayedAllWhenDistinct(arrivals: seq<ChatNode>)
    requires DistinctIds(arrivals)
    ensures Relayed(arrivals) == arrivals
    decreases |arrivals|
  {
    if arrivals != [] {
      var k := |arrivals| - 1;
      RelayedAllWhenDistinct(arrivals[..k]);
      assert FirstArrival(arrivals, k);
      assert arrivals[..k] + [arrivals[k]] == arrivals;
    }
  }

  /** Every message the page forwards in one scan reaches the hub's clients, tagged YouTube, and rings the notification. */
  lemma ForwardedMessageIsBroadcast(twitchChannel: string, seen: set<string>, nodes: seq<ChatNode>, n: ChatNode)
    requires n in Forwarded(seen, nodes)
    ensures Relay.Route(twitchChannel, Payload(n))
         == [Relay.Broadcast(Relay.YouTube, n.author, n.text), Relay.Notify]
  {
  }

  /** The host side of the scraper. */
  class HostRelay {
    var seenMessages: set<string>
    /** Every message the page has passed to the host, in order. */
    ghost var Arrivals: seq<ChatNode>

    ghost predicate Valid()
      reads this
    {
      seenMessages == ArrivedIds(Arrivals)
    }

    constructor ()
      ensures Valid() && seenMessages == {} && Arrivals == []
    {
      seenMessages := {};
      Arrivals := [];
    }

    /**
     * `onNewChatMessage`: records the id and emits the payload when the id is
     * new; does nothing for a repeated id. What has been emitted over the
     * host's lifetime is exactly the payloads of `Relayed(Arrivals)`.
     */
    method OnNewChatMessage(msg: ChatNode) returns (emitted: Option<Relay.Event>)
      requires Valid()
      modifies this
      ensures Valid()
      ensures Arrivals == old(Arrivals) + [msg]
      ensures seenMessages == old(seenMessages) + {msg.id}
      ensures emitted == if msg.id in old(seenMessages) then None else Some(Payload(msg))
      ensures Relayed(Arrivals)
           == old(Relayed(Arrivals)) + (if emitted.Some? then [msg] else [])
    {
      var id := msg.id;
      ArrivalStep(Arrivals + [msg], |Arrivals|);
      assert (Arrivals + [msg])[..|Arrivals|] == Arrivals;
      assert (Arrivals + [msg])[..|Arrivals| + 1] == Arrivals + [msg];
      if id !in seenMessages {
        seenMessages := seenMessages + {id};
        emitted := Some(Relay.YoutubeChat(msg.author, msg.text));
      } else {
        emitted := None;
      }
      Arrivals := Arrivals + [msg];
    }
  }
}
