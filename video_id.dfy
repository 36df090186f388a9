/**
 * The YouTube launcher's URL handling (youtubeChat.js): pulling the 11-character
 * video id out of a pasted stream URL, and either building the pop-out chat URL
 * from it or stopping with exit code 1.
 *
 * The launcher matches `(?:v=|\/live\/|\.be\/)([a-zA-Z0-9_-]{11})`. A regular
 * expression search tries each start position from the left and, at each one,
 * the three alternatives in order; the alternatives begin with different
 * characters, so at most one of them can apply at a position. The model is that
 * search written out as a recursive scan over the suffixes of the URL.
 */
module VideoId {
  import opened Wrappers

  /** Number of characters in a video id. */
  const IdLength := 11

  /** Exit code of the launcher when the URL holds no video id. */
  const InvalidUrlExitCode := 1

  /** The part of the pop-out chat URL that precedes the video id. */
  const ChatUrlPrefix := "https://www.youtube.com/live_chat?is_popout=1&v="

  /** The three URL shapes that the launcher's error message and pattern anticipate. */
  const WatchUrlPrefix := "https://www.youtube.com/watch?v="
  const LiveUrlPrefix := "https://www.youtube.com/live/"
  const ShortUrlPrefix := "https://youtu.be/"

  /** `[a-zA-Z0-9_-]` */
  predicate IsIdChar(c: char) {
    ('a' <= c <= 'z') || ('A' <= c <= 'Z') || ('0' <= c <= '9') || c == '_' || c == '-'
  }

  predicate IsVideoId(s: string) {
    |s| == IdLength && forall i :: 0 <= i < |s| ==> IsIdChar(s[i])
  }

  /** The characters that can begin one of the three fragments. */
  predicate IsFragmentStart(c: char) {
    c == 'v' || c == '/' || c == '.'
  }

  /**
   * Length of the fragment `v=`, `/live/` or `.be/` that `s` begins with,
   * tried in the pattern's order, or 0 when it begins with none of them.
   */
  function FragmentLength(s: string): (n: nat)
    ensures n in {0, 2, 4, 6}
    ensures n == 2 <==> |s| >= 2 && s[..2] == "v="
    ensures n == 6 <==> |s| >= 6 && s[..6] == "/live/"
    ensures n == 4 <==> |s| >= 4 && s[..4] == ".be/"
    ensures n != 0 ==> IsFragmentStart(s[0])
  {
    if |s| >= 2 && s[0] == 'v' && s[1] == '=' then 2
    else if |s| >= 6 && s[0] == '/' && s[1] == 'l' && s[2] == 'i' && s[3] == 'v' && s[4] == 'e' && s[5] == '/' then 6
    else if |s| >= 4 && s[0] == '.' && s[1] == 'b' && s[2] == 'e' && s[3] == '/' then 4
    else 0
  }

  /** The pattern matches at the start of `s`: a fragment followed by 11 id characters. */
  predicate MatchHere(s: string) {
    var n := FragmentLength(s);
    n > 0 && n + IdLength <= |s| && IsVideoId(s[n..n + IdLength])
  }

  /** The capture group of a match at the start of `s`. */
  function CapturedId(s: string): (id: string)
    requires MatchHere(s)
    ensures IsVideoId(id)
  {
    var n := FragmentLength(s);
    s[n..n + IdLength]
  }

  /** Position `k` of `url` is where the search stops: the leftmost match. */
  ghost predicate LeftmostMatch(url: string, k: int) {
    0 <= k < |url| && MatchHere(url[k..]) && forall j :: 0 <= j < k ==> !MatchHere(url[j..])
  }

  /**
   * `extractVideoId`: the capture group of the leftmost match, or None when the
   * pattern matches nowhere. Later id characters after the first 11 are ignored.
   */
  function ExtractVideoId(url: string): (r: Option<string>)
    decreases |url|
    ensures r.Some? ==> IsVideoId(r.value)
  {
    if |url| == 0 then None
    else if MatchHere(url) then Some(CapturedId(url))
    else ExtractVideoId(url[1..])
  }

  /**
   * The result is non-null exactly when the pattern matches somewhere, and then
   * it is the id captured at the leftmost match.
   */
  lemma {:induction false} ExtractVideoIdIsLeftmostMatch(url: string)
    ensures ExtractVideoId(url).None? <==> forall k :: 0 <= k < |url| ==> !MatchHere(url[k..])
    ensures ExtractVideoId(url).Some? ==>
      exists k :: LeftmostMatch(url, k) && ExtractVideoId(url).value == CapturedId(url[k..])
    decreases |url|
  {
    if |url| == 0 {
    } else if MatchHere(url) {
      assert url[0..] == url;
      assert LeftmostMatch(url, 0);
    } else {
      var rest := url[1..];
      ExtractVideoIdIsLeftmostMatch(rest);
      assert forall k :: 1 <= k <= |url| ==> rest[k - 1..] == url[k..];
      if ExtractVideoId(rest).Some? {
        var k :| LeftmostMatch(rest, k) && ExtractVideoId(rest).value == CapturedId(rest[k..]);
        assert LeftmostMatch(url, k + 1);
      }
    }
  }

  /** The two ways the launcher's URL prompt ends. */
  datatype Startup =
    | Launch(videoId: string, chatUrl: string)  // goes on to open the chat page
    | Exit(code: int)                           // prints an error and exits; nothing is launched

  /** The pop-out chat page of a video. */
  function ChatUrl(id: string): (url: string)
    ensures |url| == |ChatUrlPrefix| + |id|
    ensures url[..|ChatUrlPrefix|] == ChatUrlPrefix && url[|ChatUrlPrefix|..] == id
  {
    ChatUrlPrefix + id
  }

  /**
   * The answer to the URL prompt: exit with code 1 when no video id can be
   * found, before any chat URL is built; otherwise launch on the chat URL of
   * the id found.
   */
  function Start(url: string): (r: Startup)
    ensures r.Exit? <==> ExtractVideoId(url).None?
    ensures r.Exit? ==> r.code == InvalidUrlExitCode
    ensures r.Launch? ==> IsVideoId(r.videoId) && ExtractVideoId(url) == Some(r.videoId)
    ensures r.Launch? ==> r.chatUrl == ChatUrlPrefix + r.videoId
  {
    match ExtractVideoId(url)
    case None => Exit(InvalidUrlExitCode)
    case Some(id) => Launch(id, ChatUrl(id))
  }

  // ---------------------------------------------------------------------------
  // Round trips for the URL shapes the launcher is meant for.

  /** Skipping a piece of URL text in which the pattern cannot match. */
  lemma {:induction false} SkipPiece(piece: string, rest: string)
    requires |piece| > 0 && !MatchHere(piece + rest)
    requires forall c :: c in piece[1..] ==> !IsFragmentStart(c)
    ensures ExtractVideoId(piece + rest) == ExtractVideoId(rest)
  {
    assert (piece + rest)[1..] == piece[1..] + rest;
    SkipPlain(piece[1..], rest);
  }

  lemma {:induction false} SkipPlain(plain: string, rest: string)
    requires forall c :: c in plain ==> !IsFragmentStart(c)
    ensures ExtractVideoId(plain + rest) == ExtractVideoId(rest)
  {
    if plain == [] {
      assert plain + rest == rest;
    } else {
      assert (plain + rest)[0] == plain[0] && plain[0] in plain;
      assert (plain + rest)[1..] == plain[1..] + rest;
      SkipPlain(plain[1..], rest);
    }
  }

  /** A fragment followed by a valid id matches at once, whatever follows the id. */
  lemma MatchAfterFragment(fragment: string, id: string, tail: string)
    requires fragment == "v=" || fragment == "/live/" || fragment == ".be/"
    requires IsVideoId(id)
    ensures ExtractVideoId(fragment + id + tail) == Some(id)
  {
    var s := fragment + id + tail;
    assert s[..|fragment|] == fragment;
    assert FragmentLength(s) == |fragment|;
    assert s[|fragment|..|fragment| + IdLength] == id;
  }

  /** `https://www.youtube.com/watch?v=<id>...` yields `<id>`. */
  lemma WatchUrlRoundTrip(id: string, tail: string)
    requires IsVideoId(id)
    ensures ExtractVideoId(WatchUrlPrefix + id + tail) == Some(id)
  {
    var r := "v=" + id + tail;
    WatchUrlPieces(r, id, tail);
    SkipYoutubeHost("/watch?" + r);
    SkipWatchPath(r);
    MatchAfterFragment("v=", id, tail);
  }

  /** `https://www.youtube.com/live/<id>...` yields `<id>`. */
  lemma LiveUrlRoundTrip(id: string, tail: string)
    requires IsVideoId(id)
    ensures ExtractVideoId(LiveUrlPrefix + id + tail) == Some(id)
  {
    var r := "/live/" + id + tail;
    LiveUrlPieces(r, id, tail);
    SkipYoutubeHost(r);
    MatchAfterFragment("/live/", id, tail);
  }

  /** `https://youtu.be/<id>...` yields `<id>`. */
  lemma ShortUrlRoundTrip(id: string, tail: string)
    requires IsVideoId(id)
    ensures ExtractVideoId(ShortUrlPrefix + id + tail) == Some(id)
  {
    var r := ".be/" + id + tail;
    ShortUrlPieces(r, id, tail);
    SkipPlain("https:", "/" + ("/youtu" + r));
    SkipSlash("/youtu" + r);
    SkipPiece("/youtu", r);
    MatchAfterFragment(".be/", id, tail);
  }

  /** The chat URL built from an id carries that id back out. */
  lemma ChatUrlRoundTrip(id: string)
    requires IsVideoId(id)
    ensures ExtractVideoId(ChatUrl(id)) == Some(id)
  {
    var r := "v=" + id + "";
    ChatUrlPieces(r, id);
    SkipYoutubeHost("/li" + ("ve" + ("_chat?is_popout=1&" + r)));
    SkipLiveChat(r);
    MatchAfterFragment("v=", id, "");
  }

  lemma WatchUrlPieces(r: string, id: string, tail: string)
    requires r == "v=" + id + tail
    ensures WatchUrlPrefix + id + tail == YoutubeHost + ("/watch?" + r)
  {
  }

  lemma LiveUrlPieces(r: string, id: string, tail: string)
    requires r == "/live/" + id + tail
    ensures LiveUrlPrefix + id + tail == YoutubeHost + r
  {
  }

  lemma ShortUrlPieces(r: string, id: string, tail: string)
    requires r == ".be/" + id + tail
    ensures ShortUrlPrefix + id + tail == "https:" + ("/" + ("/youtu" + r))
  {
  }

  lemma ChatUrlPieces(r: string, id: string)
    requires r == "v=" + id + ""
    ensures ChatUrl(id) == YoutubeHost + ("/li" + ("ve" + ("_chat?is_popout=1&" + r)))
  {
  }

  /** A pasted watch URL starts the launcher on the chat page of its video. */
  lemma StartFromWatchUrl(id: string, tail: string)
    requires IsVideoId(id)
    ensures Start(WatchUrlPrefix + id + tail) == Launch(id, ChatUrlPrefix + id)
  {
    WatchUrlRoundTrip(id, tail);
  }

  /** Scheme and host shared by the watch, live and chat URLs. */
  const YoutubeHost := "https://www.youtube.com"

  /** The pattern cannot match anywhere in the scheme and host. */
  lemma SkipYoutubeHost(rest: string)
    ensures ExtractVideoId(YoutubeHost + rest) == ExtractVideoId(rest)
  {
    var r := "/www.youtube.com" + rest;
    assert YoutubeHost + rest == "https:" + ("/" + r);
    SkipPlain("https:", "/" + r);
    SkipSlash(r);
    SkipHostName(rest);
  }

  /** The pattern cannot match in `/www.youtube.com`. */
  lemma SkipHostName(rest: string)
    ensures ExtractVideoId("/www.youtube.com" + rest) == ExtractVideoId(rest)
  {
    var r2 := ".com" + rest;
    var r1 := ".youtube" + r2;
    assert "/www.youtube.com" + rest == "/www" + r1;
    SkipPiece("/www", r1);
    SkipDomain(rest);
  }

  lemma SkipDomain(rest: string)
    ensures ExtractVideoId(".youtube" + (".com" + rest)) == ExtractVideoId(rest)
  {
    SkipPiece(".youtube", ".com" + rest);
    SkipPiece(".com", rest);
  }

  /** A `/` followed by anything but `l` cannot start a match. */
  lemma SkipSlash(rest: string)
    requires |rest| > 0 && rest[0] != 'l'
    ensures ExtractVideoId("/" + rest) == ExtractVideoId(rest)
  {
    var s := "/" + rest;
    assert s[1] == rest[0];
    SkipPiece("/", rest);
  }

  /** `/live_chat?...` is not the `/live/` fragment: the sixth character differs. */
  lemma SkipLiveChat(rest: string)
    ensures ExtractVideoId("/li" + ("ve" + ("_chat?is_popout=1&" + rest))) == ExtractVideoId(rest)
  {
    var r2 := "_chat?is_popout=1&" + rest;
    var r1 := "ve" + r2;
    NotLiveFragment(r2);
    SkipPiece("/li", r1);
    SkipVe(r2);
    SkipChatQuery(rest);
  }

  /** The query of the pop-out chat URL holds no character that can start a fragment. */
  lemma SkipChatQuery(rest: string)
    ensures ExtractVideoId("_chat?is_popout=1&" + rest) == ExtractVideoId(rest)
  {
    assert "_chat?is_popout=1&" + rest == "_chat?is_" + ("popout=1&" + rest);
    SkipPlain("_chat?is_", "popout=1&" + rest);
    SkipPlain("popout=1&", rest);
  }

  /** The pattern cannot match in the `/watch?` path. */
  lemma SkipWatchPath(rest: string)
    ensures ExtractVideoId("/watch?" + rest) == ExtractVideoId(rest)
  {
    SkipPiece("/watch?", rest);
  }

  lemma SkipVe(rest: string)
    requires |rest| > 0 && rest[0] == '_'
    ensures ExtractVideoId("ve" + rest) == ExtractVideoId(rest)
  {
    var s := "ve" + rest;
    assert s[1] == 'e';
    SkipPiece("ve", rest);
  }

  lemma NotLiveFragment(rest: string)
    requires |rest| > 0 && rest[0] == '_'
    ensures !MatchHere("/li" + ("ve" + rest))
  {
    var s := "/li" + ("ve" + rest);
    assert s[5] == rest[0];
  }
}
