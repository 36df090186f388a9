/**
 * The in-page message scanner (`scanMessages` in youtubeChat.js). Each run walks
 * the chat's message elements in document order, marks every id it has not seen
 * before, and forwards those new messages whose author and text are both
 * present. The `seen` set lives as long as the page and only grows.
 */
module PageScan {

  /**
   * A `yt-live-chat-text-message-renderer` element as the scanner reads it: its
   * `id` attribute and the inner text of its author and message children.
   * "" stands for an absent attribute or child as well as for an empty one.
   */
  datatype ChatNode = ChatNode(id: string, author: string, text: string)

  /** Both author and text are truthy. */
  predicate HasContent(n: ChatNode) {
    n.author != "" && n.text != ""
  }

  /** The ids a scan of `nodes` marks as seen: all the non-empty ones. */
  function MarkedIds(nodes: seq<ChatNode>): set<string> {
    set n | n in nodes && n.id != "" :: n.id
  }

  /**
   * Node `k` is the first of the list to carry its id, and that id is
   * non-empty and not yet seen when the scan starts.
   */
  predicate FirstUnseen(seen: set<string>, nodes: seq<ChatNode>, k: int)
    requires 0 <= k < |nodes|
  {
    nodes[k].id != "" && nodes[k].id !in seen &&
    forall j :: 0 <= j < k ==> nodes[j].id != nodes[k].id
  }

  /** No two elements of `s` share an id. */
  ghost predicate DistinctIds(s: seq<ChatNode>) {
    forall a, b :: 0 <= a < b < |s| ==> s[a].id != s[b].id
  }

  /**
   * What a scan forwards, stated per node: the nodes that are the first to
   * carry a new id and have both author and text, in document order.
   */
  function Forwarded(seen: set<string>, nodes: seq<ChatNode>): (out: seq<ChatNode>)
    ensures forall n :: n in out ==> n in nodes && n.id != "" && n.id !in seen && HasContent(n)
    decreases |nodes|
  {
    if nodes == [] then []
    else
      var k := |nodes| - 1;
      Forwarded(seen, nodes[..k]) + (if FirstUnseen(seen, nodes, k) && HasContent(nodes[k]) then [nodes[k]] else [])
  }

  /** A scan never forwards two messages with the same id. */
  lemma {:induction false} ForwardedIdsDistinct(seen: set<string>, nodes: seq<ChatNode>)
    ensures DistinctIds(Forwarded(seen, nodes))
    decreases |nodes|
  {
    if nodes != [] {
      var k := |nodes| - 1;
      var before := Forwarded(seen, nodes[..k]);
      ForwardedIdsDistinct(seen, nodes[..k]);
      if FirstUnseen(seen, nodes, k) && HasContent(nodes[k]) {
        forall a | 0 <= a < |before| ensures before[a].id != nodes[k].id {
          assert before[a] in nodes[..k];
        }
      }
    }
  }

  /**
   * `out` lists messages in document order: the first element carrying the id
   * of an earlier message of `out` precedes the first element carrying the id
   * of a later one.
   */
  ghost predicate InDocumentOrder(nodes: seq<ChatNode>, out: seq<ChatNode>) {
    forall a, b :: 0 <= a < b < |out| ==> FirstIndex(nodes, out[a].id) < FirstIndex(nodes, out[b].id)
  }

  /** Forwarded messages come out in document order. */
  lemma {:induction false} ForwardedInDocumentOrder(seen: set<string>, nodes: seq<ChatNode>)
    ensures InDocumentOrder(nodes, Forwarded(seen, nodes))
    decreases |nodes|
  {
    if nodes != [] {
      var k := |nodes| - 1;
      var prefix := nodes[..k];
      var before := Forwarded(seen, prefix);
      ForwardedInDocumentOrder(seen, prefix);
      ForwardedFirstIndexInPrefix(seen, nodes, k);
      var out := Forwarded(seen, nodes);
      if FirstUnseen(seen, nodes, k) && HasContent(nodes[k]) {
        FirstIndexOfFirst(nodes, k);
        assert out == before + [nodes[k]];
      } else {
        assert out == before;
      }
      forall a, b | 0 <= a < b < |out|
        ensures FirstIndex(nodes, out[a].id) < FirstIndex(nodes, out[b].id)
      {
        assert out[a] == before[a] && before[a] in before;
        if b < |before| {
          assert out[b] == before[b] && before[b] in before;
        } else {
          assert out[b] == nodes[k];
        }
      }
    }
  }

  /** What was forwarded from a prefix is first found within that prefix. */
  lemma ForwardedFirstIndexInPrefix(seen: set<string>, nodes: seq<ChatNode>, k: int)
    requires 0 <= k <= |nodes|
    ensures forall m :: m in Forwarded(seen, nodes[..k]) ==>
      FirstIndex(nodes, m.id) == FirstIndex(nodes[..k], m.id) < k
  {
    var prefix := nodes[..k];
    forall m | m in Forwarded(seen, prefix)
      ensures FirstIndex(nodes, m.id) == FirstIndex(prefix, m.id) < k
    {
      var j :| 0 <= j < k && prefix[j] == m;
      assert nodes[j].id == m.id;
      FirstIndexPrefix(nodes, k, m.id);
    }
  }

  /** Index of the first element of `nodes` with the given id (|nodes| when there is none). */
  function FirstIndex(nodes: seq<ChatNode>, id: string): (i: nat)
    ensures i <= |nodes|
    ensures i < |nodes| ==> nodes[i].id == id
    ensures forall j :: 0 <= j < i ==> nodes[j].id != id
  {
    if nodes == [] then 0
    else if nodes[0].id == id then 0
    else 1 + FirstIndex(nodes[1..], id)
  }

  lemma {:induction false} FirstIndexPrefix(nodes: seq<ChatNode>, k: int, id: string)
    requires 0 <= k <= |nodes|
    requires exists j :: 0 <= j < k && nodes[j].id == id
    ensures FirstIndex(nodes, id) == FirstIndex(nodes[..k], id) < k
  {
    var j :| 0 <= j < k && nodes[j].id == id;
    assert nodes[..k][j].id == id;
    var i := FirstIndex(nodes, id);
    var i' := FirstIndex(nodes[..k], id);
    assert i <= i' && i' <= i;
  }

  lemma {:induction false} FirstIndexOfFirst(nodes: seq<ChatNode>, k: int)
    requires 0 <= k < |nodes|
    requires forall j :: 0 <= j < k ==> nodes[j].id != nodes[k].id
    ensures FirstIndex(nodes, nodes[k].id) == k
  {
    var i := FirstIndex(nodes, nodes[k].id);
    assert i <= k;
  }

  /**
   * Every non-empty id is marked, even when its node is not forwarded, so
   * scanning the same list again (or any list whose ids are all marked)
   * forwards nothing.
   */
  lemma {:induction false} RescanForwardsNothing(seen: set<string>, nodes: seq<ChatNode>)
    requires MarkedIds(nodes) <= seen
    ensures Forwarded(seen, nodes) == []
    decreases |nodes|
  {
    if nodes != [] {
      var k := |nodes| - 1;
      assert nodes[k] in nodes;
      assert MarkedIds(nodes[..k]) <= MarkedIds(nodes) by {
        forall n | n in nodes[..k] ensures n in nodes { }
      }
      RescanForwardsNothing(seen, nodes[..k]);
    }
  }

  /** Running the scan twice on the same element list forwards nothing the second time. */
  lemma ScanIdempotent(seen: set<string>, nodes: seq<ChatNode>)
    ensures Forwarded(seen + MarkedIds(nodes), nodes) == []
  {
    RescanForwardsNothing(seen + MarkedIds(nodes), nodes);
  }

  /**
   * Once a scan has run, no later scan forwards a message whose id that scan
   * marked, whether or not it forwarded it then.
   */
  lemma MarkedIdsNeverForwardedLater(seen: set<string>, first: seq<ChatNode>, later: seq<ChatNode>)
    ensures forall n :: n in Forwarded(seen + MarkedIds(first), later) ==> n.id !in MarkedIds(first)
  {
  }

  /** How one more node extends a scan: what it forwards and what it marks. */
  lemma ScanStep(seen: set<string>, nodes: seq<ChatNode>, i: int)
    requires 0 <= i < |nodes|
    ensures var n := nodes[i];
      var isNew := n.id != "" && n.id !in seen + MarkedIds(nodes[..i]);
      && Forwarded(seen, nodes[..i + 1])
         == Forwarded(seen, nodes[..i]) + (if isNew && HasContent(n) then [n] else [])
      && MarkedIds(nodes[..i + 1]) == MarkedIds(nodes[..i]) + (if n.id != "" then {n.id} else {})
  {
    var n := nodes[i];
    var prefix := nodes[..i + 1];
    assert prefix[..i] == nodes[..i];
    assert prefix == nodes[..i] + [n];
    assert FirstUnseen(seen, prefix, i) <==> n.id != "" && n.id !in seen + MarkedIds(nodes[..i]) by {
      if n.id in MarkedIds(nodes[..i]) {
        var m :| m in nodes[..i] && m.id != "" && m.id == n.id;
        var j :| 0 <= j < i && nodes[..i][j] == m;
        assert prefix[j].id == n.id;
      }
      forall j | 0 <= j < i && prefix[j].id == n.id && n.id != ""
        ensures n.id in MarkedIds(nodes[..i])
      {
        assert nodes[..i][j] == prefix[j];
      }
    }
  }

  /** Appending a scan's output keeps a history of forwarded messages free of repeated ids. */
  lemma HistoryStaysDistinct(history: seq<ChatNode>, seen: set<string>, nodes: seq<ChatNode>)
    requires forall i :: 0 <= i < |history| ==> history[i].id in seen
    requires DistinctIds(history)
    ensures var h := history + Forwarded(seen, nodes);
      && (forall i :: 0 <= i < |h| ==> h[i].id in seen + MarkedIds(nodes))
      && DistinctIds(h)
  {
    var out := Forwarded(seen, nodes);
    var h := history + out;
    ForwardedIdsDistinct(seen, nodes);
    forall i | 0 <= i < |h| ensures h[i].id in seen + MarkedIds(nodes) {
      if i >= |history| {
        assert h[i] in out;
      }
    }
    forall a, b | 0 <= a < b < |h| ensures h[a].id != h[b].id {
      if b >= |history| {
        assert h[b] == out[b - |history|] && h[b] in out;
        if a < |history| {
          assert h[a].id in seen;
        } else {
          assert h[a] == out[a - |history|];
        }
      }
    }
  }

  /**
   * The page side of the scraper. `History` is every message forwarded to the
   * host since the page was set up.
   */
  class PageScanner {
    var seen: set<string>
    ghost var History: seq<ChatNode>

    /** Every forwarded id is marked, and no id has been forwarded twice. */
    ghost predicate Valid()
      reads this
    {
      (forall i :: 0 <= i < |History| ==> History[i].id in seen) && DistinctIds(History)
    }

    constructor ()
      ensures Valid() && seen == {} && History == []
    {
      seen := {};
      History := [];
    }

    /**
     * One run of `scanMessages` over the message elements currently in the
     * chat, in document order. Returns the messages passed to the host, in
     * the order they are passed.
     */
    method ScanMessages(messages: seq<ChatNode>) returns (forwarded: seq<ChatNode>)
      requires Valid()
      modifies this
      ensures Valid()
      ensures seen == old(seen) + MarkedIds(messages)
      ensures forwarded == Forwarded(old(seen), messages)
      ensures History == old(History) + forwarded
    {
      forwarded := [];
      var i := 0;
      while i < |messages|
        invariant 0 <= i <= |messages|
        invariant seen == old(seen) + MarkedIds(messages[..i])
        invariant forwarded == Forwarded(old(seen), messages[..i])
        invariant History == old(History)
      {
        var msg := messages[i];
        var id := msg.id;
        ScanStep(old(seen), messages, i);
        if id != "" && id !in seen {
          seen := seen + {id};
          var author := msg.author;
          var text := msg.text;
          if author != "" && text != "" {
            forwarded := forwarded + [msg];
          }
        }
        i := i + 1;
      }
      assert messages[..i] == messages;
      HistoryStaysDistinct(History, old(seen), messages);
      History := History + forwarded;
    }
  }
}
