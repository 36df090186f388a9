/**
 * The relay hub's routing rules (server.js): each inbound event (a Twitch IRC
 * chat message, or a `youtube_chat`, `twitch_chat` or `send` request from a
 * socket client) becomes a list of actions, in the order the handler performs
 * them. The socket fan-out, the sound player and the Twitch client are reduced
 * to those actions.
 *
 * A text field holds "" where the payload has no such field or an empty one;
 * both are falsy to the handlers' checks.
 */
module Relay {

  datatype Platform = Twitch | YouTube

  /** The events the hub reacts to. */
  datatype Event =
    | IrcMessage(channel: string, displayName: string, message: string)  // tmi.js "message"
    | YoutubeChat(user: string, text: string)                           // socket "youtube_chat"
    | TwitchChat(user: string, text: string)                            // socket "twitch_chat"
    | Send(target: string, text: string)                                // socket "send"

  /** What a handler does. */
  datatype Action =
    | Broadcast(platform: Platform, user: string, text: string)  // io.emit("chat", …) to every client
    | Notify                                                      // playNotification()
    | TwitchSay(channel: string, text: string)                    // twitchClient.say(…), errors only logged

  /** The `send` targets that reach Twitch. */
  const TwitchTarget := "Twitch"
  const BothTarget := "Both"

  /** The message text an event carries. */
  function EventText(e: Event): string {
    match e
    case IrcMessage(_, _, message) => message
    case YoutubeChat(_, text) => text
    case TwitchChat(_, text) => text
    case Send(_, text) => text
  }

  /** The user an event is shown under: the IRC display name or the payload's user; a `send` has none. */
  function EventUser(e: Event): string {
    match e
    case IrcMessage(_, displayName, _) => displayName
    case YoutubeChat(user, _) => user
    case TwitchChat(user, _) => user
    case Send(_, _) => ""
  }

  /** Whether a `send` request addresses Twitch and has something to say. */
  predicate SendsToTwitch(target: string, text: string) {
    (target == TwitchTarget || target == BothTarget) && text != ""
  }

  /**
   * Whether the hub shows an event to its clients: every IRC message, and a
   * client chat event whose user and text are both truthy.
   */
  predicate Broadcastable(e: Event) {
    match e
    case IrcMessage(_, _, _) => true
    case YoutubeChat(user, text) => user != "" && text != ""
    case TwitchChat(user, text) => user != "" && text != ""
    case Send(_, _) => false
  }

  /**
   * The handlers of server.js, for a hub configured with `twitchChannel`.
   * Every text and user is passed on exactly as it arrived; a broadcast, when
   * there is one, comes first and only once, and is tagged YouTube exactly for
   * `youtube_chat`; only a `send` to Twitch or both platforms with text talks
   * to Twitch.
   */
  function Route(twitchChannel: string, e: Event): (actions: seq<Action>)
    ensures |actions| <= 2
    ensures forall a :: a in actions && !a.Notify? ==> a.text == EventText(e)
    ensures forall a :: a in actions && a.TwitchSay? ==> a.channel == twitchChannel && e.Send?
    ensures Broadcastable(e) <==> |actions| > 0 && actions[0].Broadcast?
    ensures forall i :: 0 < i < |actions| ==> actions[i].Notify?
    ensures Notify in actions <==> Broadcastable(e) && !e.IrcMessage?
    ensures forall a :: a in actions && a.Broadcast? ==>
      a.user == EventUser(e) && (a.platform == YouTube <==> e.YoutubeChat?)
    ensures e.Send? ==> (actions != [] <==> SendsToTwitch(e.target, e.text))
  {
    match e
    case IrcMessage(_, displayName, message) =>
      [Broadcast(Twitch, displayName, message)]
    case YoutubeChat(user, text) =>
      if user != "" && text != "" then [Broadcast(YouTube, user, text), Notify] else []
    case TwitchChat(user, text) =>
      if user != "" && text != "" then [Broadcast(Twitch, user, text), Notify] else []
    case Send(target, text) =>
      if SendsToTwitch(target, text) then [TwitchSay(twitchChannel, text)] else []
  }

  /** A broadcast tagged YouTube comes only from a `youtube_chat` event. */
  lemma YouTubeBroadcastOrigin(twitchChannel: string, e: Event, a: Action)
    requires a in Route(twitchChannel, e) && a.Broadcast? && a.platform == YouTube
    ensures e == YoutubeChat(a.user, a.text)
  {
  }

  /** The actions of a sequence of events, handled one after another. */
  function RouteAll(twitchChannel: string, events: seq<Event>): (actions: seq<Action>)
    ensures forall a :: a in actions && !a.Notify? ==> exists e :: e in events && a.text == EventText(e)
  {
    if events == [] then []
    else
      var last := |events| - 1;
      var before := RouteAll(twitchChannel, events[..last]);
      assert forall e :: e in events[..last] ==> e in events;
      before + Route(twitchChannel, events[last])
  }

  /** Number of broadcasts in a list of actions. */
  function BroadcastCount(actions: seq<Action>): nat {
    if actions == [] then 0
    else BroadcastCount(actions[..|actions| - 1]) + (if actions[|actions| - 1].Broadcast? then 1 else 0)
  }

  /** Number of events that the hub broadcasts. */
  function BroadcastEvents(events: seq<Event>): nat {
    if events == [] then 0
    else
      var e := events[|events| - 1];
      BroadcastEvents(events[..|events| - 1]) + (if Broadcastable(e) then 1 else 0)
  }

  lemma {:induction false} BroadcastCountAppend(xs: seq<Action>, ys: seq<Action>)
    ensures BroadcastCount(xs + ys) == BroadcastCount(xs) + BroadcastCount(ys)
    decreases |ys|
  {
    if ys == [] {
      assert xs + ys == xs;
    } else {
      var n := |ys| - 1;
      assert (xs + ys)[..|xs + ys| - 1] == xs + ys[..n];
      BroadcastCountAppend(xs, ys[..n]);
    }
  }

  /** Over a whole session, each broadcast-worthy event yields exactly one broadcast. */
  lemma {:induction false} OneBroadcastPerEvent(twitchChannel: string, events: seq<Event>)
    ensures BroadcastCount(RouteAll(twitchChannel, events)) == BroadcastEvents(events)
    decreases |events|
  {
    if events != [] {
      var last := |events| - 1;
      var e := events[last];
      OneBroadcastPerEvent(twitchChannel, events[..last]);
      BroadcastCountAppend(RouteAll(twitchChannel, events[..last]), Route(twitchChannel, e));
      var r := Route(twitchChannel, e);
      assert BroadcastCount(r) == (if Broadcastable(e) then 1 else 0) by {
        if |r| == 2 {
          assert r[..1][..0] == [] && r[..1][0] == r[0];
          assert BroadcastCount(r[..1]) == 1;
        } else if |r| == 1 {
          assert r[..0] == [];
        }
      }
    }
  }
}
