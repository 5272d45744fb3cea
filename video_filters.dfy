/**
 * The two template filters of store/templatetags/video_filters.py: the
 * rewriting of a YouTube or Vimeo link into its embeddable form, and the
 * two-letter avatar label of a user.
 */
module VideoFilters {
  import opened Wrappers
  import opened Models
  import opened Text

  const YoutubeEmbed: string := "https://www.youtube.com/embed/"
  const VimeoPlayer: string := "https://player.vimeo.com/video/"

  const WatchMarker: string := "youtube.com/watch?v="
  const ShortMarker: string := "youtu.be/"
  const EmbedMarker: string := "youtube.com/embed/"
  const VimeoMarker: string := "vimeo.com/"
  const VideoPath: string := "/video/"
  const PlayerPath: string := "/player.vimeo.com/video/"

  /** `r` is `prefix` followed by a video id. */
  predicate HasPrefix(r: string, prefix: string)
  {
    |prefix| <= |r| && r[..|prefix|] == prefix
  }

  lemma WatchMarkerHasV(u: string)
    requires Contains(u, WatchMarker)
    ensures Contains(u, "v=")
  {
    assert Occurs(WatchMarker, "v=", 18);
    ContainsWithin(u, WatchMarker, "v=");
  }

  /**
   * The `/player.vimeo.com/video/` branch of the Vimeo handling is never
   * taken: every such link already contains `/video/`.
   */
  lemma PlayerBranchUnreachable(u: string)
    requires Contains(u, PlayerPath)
    ensures Contains(u, VideoPath)
  {
    assert Occurs(PlayerPath, VideoPath, 17);
    ContainsWithin(u, PlayerPath, VideoPath);
  }

  /** The `youtube_embed_url` filter. A missing link is `None`. */
  function EmbedUrl(url: Option<string>): (r: string)
    ensures url == None || url == Some("") ==> r == ""
    // a watch link: the text after the first "v=" up to the next "v=", cut at its first '&'
    ensures url.Some? && Contains(url.value, WatchMarker) && Contains(url.value, "v=") ==>
      HasPrefix(r, YoutubeEmbed) && CutAt(Segment(url.value, "v="), r[|YoutubeEmbed|..], {'&'})
    // a short link: the text after "youtu.be/" up to the next one, cut at its first '?'
    ensures url.Some? && !Contains(url.value, WatchMarker) && Contains(url.value, ShortMarker) ==>
      HasPrefix(r, YoutubeEmbed) && CutAt(Segment(url.value, ShortMarker), r[|YoutubeEmbed|..], {'?'})
    // an embed link, or a link to neither site, is kept as it is
    ensures url.Some? && url.value != "" && !Contains(url.value, WatchMarker) && !Contains(url.value, ShortMarker)
            && (Contains(url.value, EmbedMarker) || !Contains(url.value, VimeoMarker)) ==>
      r == url.value
    // a Vimeo link with a "/video/" path: the text after it, cut at its first '?'
    ensures url.Some? && !Contains(url.value, WatchMarker) && !Contains(url.value, ShortMarker)
            && !Contains(url.value, EmbedMarker) && Contains(url.value, VimeoMarker) && Contains(url.value, VideoPath) ==>
      HasPrefix(r, VimeoPlayer) && CutAt(Segment(url.value, VideoPath), r[|VimeoPlayer|..], {'?'})
    // any other Vimeo link: the first path segment after "vimeo.com/", cut at its first '?' or '/'
    ensures url.Some? && !Contains(url.value, WatchMarker) && !Contains(url.value, ShortMarker)
            && !Contains(url.value, EmbedMarker) && Contains(url.value, VimeoMarker) && !Contains(url.value, VideoPath) ==>
      HasPrefix(r, VimeoPlayer) && CutAt(Segment(url.value, VimeoMarker), r[|VimeoPlayer|..], {'?', '/'})
  {
    if url.None? || url.value == "" then ""
    else
      var u := url.value;
      if Contains(u, WatchMarker) then
        WatchMarkerHasV(u);
        var seg := Segment(u, "v=");
        BeforeChar(seg, '&');
        YoutubeEmbed + Before(seg, "&")
      else if Contains(u, ShortMarker) then
        var seg := Segment(u, ShortMarker);
        BeforeChar(seg, '?');
        YoutubeEmbed + Before(seg, "?")
      else if Contains(u, EmbedMarker) then
        u
      else if Contains(u, VimeoMarker) then
        if Contains(u, VideoPath) then
          var seg := Segment(u, VideoPath);
          BeforeChar(seg, '?');
          VimeoPlayer + Before(seg, "?")
        else if Contains(u, PlayerPath) then
          PlayerBranchUnreachable(u);
          assert false;
          u
        else
          var seg := Segment(u, VimeoMarker);
          BeforeTwoChars(seg, '?', '/');
          VimeoPlayer + Before(Before(seg, "?"), "/")
      else
        u
  }

  /** The `user_initials` filter. An anonymous or missing user is `None`. */
  function UserInitials(user: Option<User>): (r: string)
    ensures |r| == 1 || |r| == 2
    ensures |r| == 1 <==> user.None? || AllSpace(user.value.username)
    ensures |r| == 1 ==> r == "U"
    ensures |r| == 2 ==> var name := Strip(user.value.username);
      && r[0] == UpperChar(name[0])
      && (|name| >= 2 ==> r[1] == UpperChar(name[1]))
      && (|name| == 1 ==> r[1] == r[0])
  {
    if user.None? || user.value.username == "" then "U"
    else InitialsOf(Upper(Strip(user.value.username)))
  }

  /** The first two letters of a stripped, upper-cased name, the one letter twice, or "U". */
  function InitialsOf(name: string): string
  {
    if |name| >= 2 then [name[0], name[1]]
    else if |name| == 1 then [name[0], name[0]]
    else "U"
  }

  /** White space around a username does not change its initials. */
  lemma InitialsIgnorePadding(u: User, a: string, b: string)
    requires AllSpace(a) && AllSpace(b)
    ensures UserInitials(Some(u.(username := a + u.username + b))) == UserInitials(Some(u))
  {
    StripPadded(a, u.username, b);
  }

  /** Upper-casing a username does not change its initials. */
  lemma InitialsIgnoreCase(u: User)
    ensures UserInitials(Some(u.(username := Upper(u.username)))) == UserInitials(Some(u))
  {
    var s := u.username;
    var s' := Upper(s);
    assert s' == "" <==> s == "";
    assert Upper(Strip(s')) == Upper(Strip(s)) by {
      StripUpper(s);
      UpperTwice(Strip(s));
    }
    assert s != "" ==> InitialsOf(Upper(Strip(s'))) == InitialsOf(Upper(Strip(s)));
  }

  lemma UpperTwice(s: string)
    ensures Upper(Upper(s)) == Upper(s)
  {
  }

  lemma StripUpper(s: string)
    ensures Strip(Upper(s)) == Upper(Strip(s))
  {
    TrimStartUpper(s);
    TrimEndUpper(TrimStart(s));
  }

  lemma {:induction false} TrimStartUpper(s: string)
    ensures TrimStart(Upper(s)) == Upper(TrimStart(s))
    decreases |s|
  {
    if s != [] {
      assert Upper(s)[1..] == Upper(s[1..]);
      TrimStartUpper(s[1..]);
    }
  }

  lemma {:induction false} TrimEndUpper(s: string)
    ensures TrimEnd(Upper(s)) == Upper(TrimEnd(s))
    decreases |s|
  {
    if s != [] {
      assert Upper(s)[..|s| - 1] == Upper(s[..|s| - 1]);
      TrimEndUpper(s[..|s| - 1]);
    }
  }
}
