# Twin-chat relay: a Dafny model of its decision logic

Twin-chat merges two live chats into one overlay. A Node.js hub (`server.js`) relays
Twitch IRC chat and YouTube chat to every connected browser client. It also forwards
operator replies to Twitch. The YouTube side is a scraper (`youtubeChat.js`). It asks
for a stream URL, extracts the video id, and opens the pop-out chat in a headless
browser. A script inside that page scans the chat's message elements and passes new
ones to the host process, which emits them to the hub as `youtube_chat` events.

This project models the logic behind that wiring:

- `video_id.dfy` (module `VideoId`): `extractVideoId`, written as a left-to-right scan
  equivalent to the launcher's regular expression. Also the exit-or-launch decision
  and the pop-out chat URL. Pure functions and lemmas.
- `page_scan.dfy` (module `PageScan`): the in-page `scanMessages` and its `seen` set.
  This is a class whose method runs the scanning loop. It is proved against a
  per-node definition of what a scan forwards.
- `host_filter.dfy` (module `HostFilter`): the host's `onNewChatMessage` and its
  `seenMessages` set, as a class with a lifetime record of arrivals. It also holds
  the lemmas that connect the page, the host and the hub.
- `polling.dfy` (module `Polling`): the `waitForElement` retry loop, as a method over
  the sequence of check results.
- `relay.dfy` (module `Relay`): the hub's four handlers. They form one pure function
  from an inbound event to the list of actions it causes: broadcast to all clients,
  play the notification sound, or say something on Twitch.
- `wrappers.dfy` (module `Wrappers`): the `Option` type.

A text field that is missing and one that is `""` are both represented as `""`. Every
check in the source treats them alike (both are falsy). Where the source does not
check a field (the IRC display name and message, and the author and text the host
passes to the hub), it is passed through unchanged.

The relationships proved across modules:

- The page never forwards an id twice over its lifetime.
- The host's own filter relays every arrival, unchanged and in order, whenever the
  arrivals carry distinct ids (`RelayedAllWhenDistinct`). That lemma takes distinct
  ids as a hypothesis; no lemma ties the host's arrivals to the page's forwards.
- Every forwarded message becomes exactly one YouTube broadcast followed by one
  notification (`ForwardedMessageIsBroadcast`).

## Model

| member | source | states |
|---|---|---|
| VideoId.ExtractVideoId | youtubeChat.js:11-14 | the result is null or exactly 11 characters, each a letter, digit, `_` or `-` |
| VideoId.ExtractVideoIdIsLeftmostMatch | youtubeChat.js:12-13 | the result is non-null exactly when `v=`, `/live/` or `.be/` is followed by 11 id characters somewhere; the id is the one captured at the leftmost such position, and further id characters are ignored |
| VideoId.FragmentLength | youtubeChat.js:12 | the length is 2, 6 or 4 exactly when the text starts with `v=`, `/live/` or `.be/` respectively, and 0 otherwise; since the fragments begin with different characters, at most one alternative applies at a position |
| VideoId.CapturedId | youtubeChat.js:12-13 | the capture group of a match is a well-formed video id |
| VideoId.WatchUrlRoundTrip | youtubeChat.js:12 | `https://www.youtube.com/watch?v=` + id + any tail yields that id |
| VideoId.LiveUrlRoundTrip | youtubeChat.js:12 | `https://www.youtube.com/live/` + id + any tail yields that id |
| VideoId.ShortUrlRoundTrip | youtubeChat.js:12 | `https://youtu.be/` + id + any tail yields that id |
| VideoId.ChatUrlRoundTrip | youtubeChat.js:25 | the id can be extracted again from the chat URL built from it (`/live_chat` is not the `/live/` fragment) |
| VideoId.Start | youtubeChat.js:16-25 | when no id is found the launcher exits with code 1 and builds no chat URL; otherwise it launches on `https://www.youtube.com/live_chat?is_popout=1&v=` + the extracted id |
| VideoId.StartFromWatchUrl | youtubeChat.js:17-25 | a watch URL starts the launcher on the chat page of its own video |
| PageScan.Forwarded | youtubeChat.js:66-73 | only nodes from the list are forwarded, and each has a non-empty id that was not seen and a non-empty author and text |
| PageScan.ForwardedIdsDistinct | youtubeChat.js:68-69 | one scan never forwards two messages with the same id |
| PageScan.ForwardedInDocumentOrder | youtubeChat.js:66-73 | forwarded messages come out in document order |
| PageScan.RescanForwardsNothing | youtubeChat.js:67-69 | when every non-empty id of the list is already seen, a scan forwards nothing |
| PageScan.ScanIdempotent | youtubeChat.js:59-78 | scanning the same element list a second time forwards nothing |
| PageScan.MarkedIdsNeverForwardedLater | youtubeChat.js:67-72 | an id marked by one scan is never forwarded by a later one, including an id whose author or text was missing when it was marked |
| PageScan.ScanStep | youtubeChat.js:66-76 | one more element extends the output only when its id is new and it has content, and it extends the marked set by its id when that is non-empty |
| PageScan.HistoryStaysDistinct | youtubeChat.js:59-78 | adding a scan's output to the record of earlier forwards keeps every forwarded id marked and no id repeated |
| PageScan.PageScanner.constructor | youtubeChat.js:59 | the page starts with an empty `seen` set and has forwarded nothing |
| PageScan.PageScanner.ScanMessages | youtubeChat.js:61-78 | after the loop, `seen` is the old set plus every non-empty id in the list (it never shrinks), the returned forwards are exactly `Forwarded(old seen, list)`, and over the page's lifetime no id is forwarded twice |
| HostFilter.Relayed | youtubeChat.js:46-56 | the host relays only messages that arrived |
| HostFilter.ArrivalStep | youtubeChat.js:48-49 | an arrival adds its id to `seenMessages`, and it is the first of its id exactly when that id was not there before |
| HostFilter.RelayedOncePerId | youtubeChat.js:46-55 | over the host's lifetime at most one `youtube_chat` is emitted per id, and exactly one for each distinct id that arrived |
| HostFilter.RelayedAllWhenDistinct | youtubeChat.js:46-49 | when the arrivals carry distinct ids, as the page's forwards do, the host relays all of them in arrival order |
| HostFilter.ForwardedMessageIsBroadcast | server.js:55-64 | a message the page forwards becomes one YouTube broadcast with its author and text, followed by one notification |
| HostFilter.HostRelay.constructor | youtubeChat.js:27 | the host starts with an empty `seenMessages` |
| HostFilter.HostRelay.OnNewChatMessage | youtubeChat.js:46-56 | a new id is recorded and its payload emitted; a repeated id emits nothing; what has been emitted over the lifetime is the first arrival of each id, in arrival order |
| Polling.WaitForChatContainer | youtubeChat.js:81-98 | the wait for `#item-scroller` with the default 10000 ms timeout makes at most 101 checks, and rejects with `Element not found: #item-scroller` exactly when the first 101 checks all fail |
| Polling.WaitForElement | youtubeChat.js:81-95 | resolves on the first check that finds the element, if it comes within `timeout / 100` retries; rejects with `Element not found: <selector>` after `timeout / 100 + 1` failed checks; never makes more checks than that |
| Relay.Route | server.js:43-85 | every text is passed on verbatim; a broadcast comes first and at most once; a broadcast happens exactly for IRC messages and for client chat events with a truthy user and text; a notification happens only for the latter; every broadcast carries the event's own user (the IRC display name or the payload's user) and is tagged YouTube exactly for `youtube_chat`; only a `send` talks to Twitch, always to the configured channel, and a `send` does so exactly when its target is "Twitch" or "Both" and its text is non-empty |
| Relay.YouTubeBroadcastOrigin | server.js:55-64 | a broadcast tagged YouTube comes only from a `youtube_chat` event with the same user and text |
| Relay.RouteAll | server.js:43-85 | over a session, every text the hub passes on is the text of some inbound event |
| Relay.OneBroadcastPerEvent | server.js:43-75 | over a session, the number of broadcasts equals the number of events that warrant one |

## Left out

- The browser: launching it, opening and navigating the page, exposing the host
  function and evaluating the page script, and forwarding its console. These are
  foreign I/O. The page-to-host call is modelled as the sequence that `ScanMessages`
  returns.
- The readline prompt. The URL is a parameter. `process.exit` is modelled only as the
  `Exit(1)` outcome of `Start`.
- The MutationObserver: when scans run, and the initial scan after the container is
  found. Each scan is one call of `ScanMessages` on the element list at that moment.
- DOM queries (`querySelectorAll`, `querySelector`, `getAttribute`, `innerText`). The
  element list is an input of `ChatNode` records.
- The `setTimeout` delays of `waitForElement`. Only the number of checks is modelled.
  The rejection is only logged in the source; what the page does afterwards is not
  modelled.
- The socket.io transport, client connections and the actual fan-out. `io.emit` is
  the `Broadcast` action.
- The express static hosting, the dotenv configuration, and the connect and `say`
  internals of tmi.js. The Twitch channel is a parameter of `Route`. A failed
  `say` is only logged, so it has no action.
- The audio playback in `playNotification`, which is the `Notify` action.
- Route: an event that arrives with no payload, or a `null` one, makes the handler's
  destructuring of its fields throw a TypeError. Every modelled event carries its
  fields, so this error path is not modelled.
- Payload fields that are not strings (numbers, objects). Every text field is a
  string, and "" stands for a missing field.
- Emote rendering, HTML escaping, avatars and a chat-disabled state do not appear in
  either source file, so they are not modelled.
