/**
 * The trailer player (components/trailer-player.tsx) and the two URL patterns it matches.
 * A pattern match is modelled the way a backtracking matcher finds it: the leftmost start
 * position at which the pattern matches, and at that position the alternatives and
 * repetition lengths in the order the matcher tries them. Each extractor returns the
 * position just after the part before the capture group.
 */
module TrailerPlayer {
  import opened Wrappers
  import opened JsText

  // ---------------------------------------------------------------------------
  // Runs of characters, as a greedy repetition first takes them

  /** The longest run of characters other than '/' from `i` (`[^/]*`). */
  function NonSlashRun(s: string, i: nat): (n: nat)
    requires i <= |s|
    ensures i + n <= |s| && (i + n == |s| || s[i + n] == '/')
    ensures forall k :: i <= k < i + n ==> s[k] != '/'
    decreases |s| - i
  {
    if i < |s| && s[i] != '/' then 1 + NonSlashRun(s, i + 1) else 0
  }

  /** The longest run of characters other than line terminators from `i` (`.*`). */
  function DotRun(s: string, i: nat): (n: nat)
    requires i <= |s|
    ensures i + n <= |s| && (i + n == |s| || IsLineTerminator(s[i + n]))
    ensures forall k :: i <= k < i + n ==> !IsLineTerminator(s[k])
    decreases |s| - i
  {
    if i < |s| && !IsLineTerminator(s[i]) then 1 + DotRun(s, i + 1) else 0
  }

  /** The longest run of `\w` characters from `i`. */
  function WordRun(s: string, i: nat): (n: nat)
    requires i <= |s|
    ensures i + n <= |s| && (i + n == |s| || !IsWordChar(s[i + n]))
    ensures forall k :: i <= k < i + n ==> IsWordChar(s[k])
    decreases |s| - i
  {
    if i < |s| && IsWordChar(s[i]) then 1 + WordRun(s, i + 1) else 0
  }

  /** The longest run of `\d` characters from `i`. */
  function DigitRun(s: string, i: nat): (n: nat)
    requires i <= |s|
    ensures i + n <= |s| && (i + n == |s| || !IsDigit(s[i + n]))
    ensures forall k :: i <= k < i + n ==> IsDigit(s[k])
    decreases |s| - i
  {
    if i < |s| && IsDigit(s[i]) then 1 + DigitRun(s, i + 1) else 0
  }

  // ---------------------------------------------------------------------------
  // YouTube: (?:youtube\.com\/(?:[^/]+\/.+\/|(?:v|e(?:mbed)?)\/|.*[?&]v=)|youtu\.be\/)([^"&?/\s]{11})

  /** A character `[^"&?/\s]` accepts. */
  predicate IdChar(c: char) {
    c != '"' && c != '&' && c != '?' && c != '/' && !IsSpace(c)
  }

  /** Eleven id characters start at `i`. */
  predicate IdAt(s: string, i: nat) {
    i + 11 <= |s| && forall k :: i <= k < i + 11 ==> IdChar(s[k])
  }

  /** A video id: eleven id characters. */
  predicate IsVideoId(id: string) {
    |id| == 11 && forall k :: 0 <= k < 11 ==> IdChar(id[k])
  }

  /** `.+\/` then the id, after `r`: the repetition takes `m` characters, tried from the
      longest down to one. */
  function SlashThenId(s: string, r: nat, m: nat): (e: Option<nat>)
    requires r + m <= |s|
    ensures e.Some? ==> IdAt(s, e.value)
    decreases m
  {
    if m == 0 then None
    else if r + m < |s| && s[r + m] == '/' && IdAt(s, r + m + 1) then Some(r + m + 1)
    else SlashThenId(s, r, m - 1)
  }

  /** `.*[?&]v=` then the id, after `q`: the repetition takes `m` characters, tried from
      the longest down to none. */
  function QueryThenId(s: string, q: nat, m: nat): (e: Option<nat>)
    requires q + m <= |s|
    ensures e.Some? ==> IdAt(s, e.value)
    decreases m
  {
    if q + m + 2 < |s| && (s[q + m] == '?' || s[q + m] == '&') && s[q + m + 1] == 'v' && s[q + m + 2] == '='
      && IdAt(s, q + m + 3)
    then Some(q + m + 3)
    else if m == 0 then None
    else QueryThenId(s, q, m - 1)
  }

  /** The three alternatives after "youtube.com/", in the order they are tried. */
  function AfterYouTubeCom(s: string, q: nat): (e: Option<nat>)
    requires q <= |s|
    ensures e.Some? ==> IdAt(s, e.value)
  {
    // [^/]+\/.+\/ : a shorter first run cannot be followed by '/', so only the longest is tried
    var run := NonSlashRun(s, q);
    var first :=
      if run >= 1 && q + run < |s| then SlashThenId(s, q + run + 1, DotRun(s, q + run + 1)) else None;
    if first.Some? then first
    // (?:v|e(?:mbed)?)\/
    else if q + 1 < |s| && s[q] == 'v' && s[q + 1] == '/' && IdAt(s, q + 2) then Some(q + 2)
    else if q < |s| && s[q] == 'e' && OccursAt(s, "mbed/", q + 1) && IdAt(s, q + 6) then Some(q + 6)
    else if q + 1 < |s| && s[q] == 'e' && s[q + 1] == '/' && IdAt(s, q + 2) then Some(q + 2)
    // .*[?&]v=
    else QueryThenId(s, q, DotRun(s, q))
  }

  /** The pattern matched from position `p`. */
  function YouTubeAt(s: string, p: nat): (e: Option<nat>)
    ensures e.Some? ==> IdAt(s, e.value)
    ensures e.Some? ==> OccursAt(s, "youtube.com/", p) || OccursAt(s, "youtu.be/", p)
  {
    if OccursAt(s, "youtube.com/", p) then AfterYouTubeCom(s, p + 12)
    else if OccursAt(s, "youtu.be/", p) && IdAt(s, p + 9) then Some(p + 9)
    else None
  }

  /** The leftmost match at or after `p`. */
  function YouTubeFrom(s: string, p: nat): (e: Option<nat>)
    ensures e.Some? ==> IdAt(s, e.value)
    ensures e.Some? ==> Contains(s, "youtube.com/") || Contains(s, "youtu.be/")
    decreases |s| + 1 - p
  {
    if p > |s| then None
    else
      var here := YouTubeAt(s, p);
      if here.Some? then
        SiteNameContained(s, p);
        here
      else YouTubeFrom(s, p + 1)
  }

  lemma SiteNameContained(s: string, p: nat)
    ensures OccursAt(s, "youtube.com/", p) ==> Contains(s, "youtube.com/")
    ensures OccursAt(s, "youtu.be/", p) ==> Contains(s, "youtu.be/")
  {
    if OccursAt(s, "youtube.com/", p) { ContainsAt(s, "youtube.com/", p); }
    if OccursAt(s, "youtu.be/", p) { ContainsAt(s, "youtu.be/", p); }
  }

  /** The captured video id. */
  function YouTubeId(url: string): (id: Option<string>)
    ensures id.Some? ==> IsVideoId(id.value)
    ensures id.Some? ==> Contains(url, "youtube.com/") || Contains(url, "youtu.be/")
  {
    match YouTubeFrom(url, 0)
    case None => None
    case Some(e) => Some(url[e..e + 11])
  }

  // ---------------------------------------------------------------------------
  // Vimeo: vimeo\.com\/(?:channels\/(?:\w+\/)?|groups\/(?:[^/]*)\/videos\/|)(\d+)

  /** The three alternatives after "vimeo.com/", each followed by the digits; the result is
      where the digits start. */
  function AfterVimeoCom(s: string, q: nat): (c: Option<nat>)
    requires q <= |s|
    ensures c.Some? ==> c.value <= |s| && DigitRun(s, c.value) >= 1
  {
    // channels\/(?:\w+\/)? : the optional segment is tried first, and only with its longest run
    var channels :=
      if OccursAt(s, "channels/", q) then
        var w := WordRun(s, q + 9);
        if w >= 1 && q + 9 + w < |s| && s[q + 9 + w] == '/' && DigitRun(s, q + 9 + w + 1) >= 1 then Some(q + 9 + w + 1)
        else if DigitRun(s, q + 9) >= 1 then Some(q + 9)
        else None
      else None;
    // groups\/(?:[^/]*)\/videos\/ : only the longest run can be followed by '/'
    var groups :=
      if OccursAt(s, "groups/", q) then
        var n := NonSlashRun(s, q + 7);
        if OccursAt(s, "/videos/", q + 7 + n) && DigitRun(s, q + 7 + n + 8) >= 1 then Some(q + 7 + n + 8) else None
      else None;
    if channels.Some? then channels
    else if groups.Some? then groups
    else if DigitRun(s, q) >= 1 then Some(q)
    else None
  }

  function VimeoAt(s: string, p: nat): (c: Option<nat>)
    ensures c.Some? ==> c.value <= |s| && DigitRun(s, c.value) >= 1
    ensures c.Some? ==> OccursAt(s, "vimeo.com/", p)
  {
    if OccursAt(s, "vimeo.com/", p) then AfterVimeoCom(s, p + 10) else None
  }

  function VimeoFrom(s: string, p: nat): (c: Option<nat>)
    ensures c.Some? ==> c.value <= |s| && DigitRun(s, c.value) >= 1
    ensures c.Some? ==> Contains(s, "vimeo.com/")
    decreases |s| + 1 - p
  {
    if p > |s| then None
    else
      var here := VimeoAt(s, p);
      if here.Some? then
        ContainsAt(s, "vimeo.com/", p);
        here
      else VimeoFrom(s, p + 1)
  }

  /** The captured run of digits. */
  function VimeoId(url: string): (id: Option<string>)
    ensures id.Some? ==> |id.value| >= 1 && AllDigits(id.value)
    ensures id.Some? ==> Contains(url, "vimeo.com/")
  {
    match VimeoFrom(url, 0)
    case None => None
    case Some(c) => Some(url[c..c + DigitRun(url, c)])
  }

  // ---------------------------------------------------------------------------
  // The player

  const YouTubeEmbedPrefix := "https://www.youtube.com/embed/"
  const VimeoPlayerPrefix := "https://player.vimeo.com/video/"

  predicate IsYouTube(url: string) {
    Contains(url, "youtube.com") || Contains(url, "youtu.be")
  }

  /** The effect: the embed URL it stores for `url`, or `previous` when it stores nothing
      (a YouTube or Vimeo URL without an id). */
  function EmbedAfter(previous: string, url: string): (embed: string)
    ensures IsYouTube(url) ==> embed == (if YouTubeId(url).Some? then YouTubeEmbedPrefix + YouTubeId(url).value else previous)
    ensures !IsYouTube(url) && Contains(url, "vimeo.com") ==>
      embed == (if VimeoId(url).Some? then VimeoPlayerPrefix + VimeoId(url).value else previous)
    ensures !IsYouTube(url) && !Contains(url, "vimeo.com") ==> embed == url
  {
    if IsYouTube(url) then
      match YouTubeId(url)
      case Some(id) => YouTubeEmbedPrefix + id
      case None => previous
    else if Contains(url, "vimeo.com") then
      match VimeoId(url)
      case Some(id) => VimeoPlayerPrefix + id
      case None => previous
    else url
  }

  /** The embed URL after the first render, which starts from "". */
  function EmbedUrl(url: string): string {
    EmbedAfter("", url)
  }

  datatype View = LoadingTrailer | VideoElement(src: string) | Iframe(src: string)

  /** What the component renders for an embed URL. */
  function Render(embed: string): (v: View)
    ensures v.LoadingTrailer? <==> embed == ""
    ensures v.VideoElement? <==> embed != "" && EndsWith(embed, ".mp4")
    ensures !v.LoadingTrailer? ==> v.src == embed
  {
    if embed == "" then LoadingTrailer
    else if EndsWith(embed, ".mp4") then VideoElement(embed)
    else Iframe(embed)
  }

  // ---------------------------------------------------------------------------
  // Properties

  /** The YouTube test wins over the Vimeo test. */
  lemma YouTubeTestFirst(url: string)
    requires IsYouTube(url) && Contains(url, "vimeo.com")
    ensures EmbedUrl(url) == (if YouTubeId(url).Some? then YouTubeEmbedPrefix + YouTubeId(url).value else "")
  {
  }

  /** A YouTube or Vimeo URL without an id renders the loading text. */
  lemma NoIdLoads(url: string)
    requires (IsYouTube(url) && YouTubeId(url).None?) || (!IsYouTube(url) && Contains(url, "vimeo.com") && VimeoId(url).None?)
    ensures Render(EmbedUrl(url)) == LoadingTrailer
  {
  }

  /** Any other URL is played as it is: in a video element exactly when it ends in ".mp4". */
  lemma DirectUrlPlayed(url: string)
    requires !IsYouTube(url) && !Contains(url, "vimeo.com") && url != ""
    ensures Render(EmbedUrl(url)) == if EndsWith(url, ".mp4") then VideoElement(url) else Iframe(url)
  {
  }

  /** Both patterns need their site's name at the match position. */
  lemma {:induction false} YouTubeSkips(s: string, p: nat, k: nat)
    requires p <= k <= |s|
    requires forall j :: p <= j < k ==> s[j] != 'y'
    ensures YouTubeFrom(s, p) == YouTubeFrom(s, k)
    decreases k - p
  {
    if p < k {
      assert !OccursAt(s, "youtube.com/", p) && !OccursAt(s, "youtu.be/", p) by {
        if p + 9 <= |s| { assert s[p..p + 9][0] == s[p]; }
        if p + 12 <= |s| { assert s[p..p + 12][0] == s[p]; }
      }
      YouTubeSkips(s, p + 1, k);
    }
  }

  lemma {:induction false} VimeoSkips(s: string, p: nat, k: nat)
    requires p <= k <= |s|
    requires forall j :: p <= j < k ==> s[j] != 'v'
    ensures VimeoFrom(s, p) == VimeoFrom(s, k)
    decreases k - p
  {
    if p < k {
      assert !OccursAt(s, "vimeo.com/", p) by {
        if p + 10 <= |s| { assert s[p..p + 10][0] == s[p]; }
      }
      VimeoSkips(s, p + 1, k);
    }
  }

  lemma IdAtOf(prefix: string, id: string)
    requires IsVideoId(id)
    ensures IdAt(prefix + id, |prefix|) && (prefix + id)[|prefix|..|prefix| + 11] == id
  {
    var s := prefix + id;
    forall k | |prefix| <= k < |prefix| + 11 ensures IdChar(s[k]) {
      assert s[k] == id[k - |prefix|];
    }
  }

  lemma Regroup(a: string, b: string, c: string, d: string)
    ensures a + (b + (c + d)) == (a + b + c) + d
  {
  }

  lemma Regroup2(a: string, b: string, d: string)
    ensures a + (b + d) == (a + b) + d
  {
  }

  lemma ShortLinkLiteral()
    ensures "https://" + "youtu.be/" == "https://youtu.be/"
  {
  }

  lemma EmbedLinkLiteral()
    ensures "https://www." + "youtube.com/" + "embed/" == "https://www.youtube.com/embed/"
  {
  }

  lemma WatchLinkLiteral()
    ensures "https://www." + "youtube.com/" + "watch?v=" == "https://www.youtube.com/watch?v="
  {
  }

  lemma VimeoLinkLiteral()
    ensures "https://" + "vimeo.com/" == "https://vimeo.com/"
  {
  }

  lemma OccursBetween(a: string, t: string, b: string)
    ensures OccursAt(a + (t + b), t, |a|)
  {
    assert (a + (t + b))[|a|..|a| + |t|] == t;
  }

  /** A prefix without 'y' (or 'v') is skipped by the leftmost search. */
  lemma YouTubeSkipsPrefix(a: string, b: string)
    requires 'y' !in a
    ensures YouTubeFrom(a + b, 0) == YouTubeFrom(a + b, |a|)
  {
    var s := a + b;
    forall j | 0 <= j < |a| ensures s[j] != 'y' {
      assert s[j] == a[j];
    }
    YouTubeSkips(s, 0, |a|);
  }

  lemma VimeoSkipsPrefix(a: string, b: string)
    requires 'v' !in a
    ensures VimeoFrom(a + b, 0) == VimeoFrom(a + b, |a|)
  {
    var s := a + b;
    forall j | 0 <= j < |a| ensures s[j] != 'v' {
      assert s[j] == a[j];
    }
    VimeoSkips(s, 0, |a|);
  }

  /** A literal does not occur where one of its characters differs. */
  lemma Mismatch(s: string, t: string, i: nat, k: nat)
    requires k < |t| && (i + k < |s| ==> s[i + k] != t[k])
    ensures !OccursAt(s, t, i)
  {
    if i + |t| <= |s| {
      assert s[i..i + |t|][k] == s[i + k];
    }
  }

  /** `https://youtu.be/<id>` gives the id. */
  lemma ShortLinkId(id: string)
    requires IsVideoId(id)
    ensures YouTubeId("https://youtu.be/" + id) == Some(id)
    ensures EmbedUrl("https://youtu.be/" + id) == YouTubeEmbedPrefix + id
  {
    var t := "youtu.be/" + id;
    var s := "https://" + t;
    Regroup2("https://", "youtu.be/", id);
    ShortLinkLiteral();
    YouTubeSkipsPrefix("https://", t);
    OccursBetween("https://", "youtu.be/", id);
    assert s[13] == t[5] == '.';
    Mismatch(s, "youtube.com/", 8, 5);
    IdAtOf("https://youtu.be/", id);
    assert YouTubeAt(s, 8) == Some(17);
    assert YouTubeFrom(s, 8) == Some(17);
    SiteLiterals();
    IdLinkEmbeds(s, 8, "youtu.be", id);
  }

  /** `https://www.youtube.com/embed/<id>` gives the id. */
  lemma EmbedLinkId(id: string)
    requires IsVideoId(id)
    ensures YouTubeId("https://www.youtube.com/embed/" + id) == Some(id)
    ensures EmbedUrl("https://www.youtube.com/embed/" + id) == YouTubeEmbedPrefix + id
  {
    var s := "https://www." + ("youtube.com/" + ("embed/" + id));
    Regroup("https://www.", "youtube.com/", "embed/", id);
    EmbedLinkLiteral();
    YouTubeSkipsPrefix("https://www.", "youtube.com/" + ("embed/" + id));
    OccursBetween("https://www.", "youtube.com/", "embed/" + id);
    IdAtOf("https://www.youtube.com/embed/", id);
    EmbedBranch(s, id);
    assert YouTubeAt(s, 12) == Some(30);
    assert YouTubeFrom(s, 12) == Some(30);
    SiteLiterals();
    IdLinkEmbeds(s, 12, "youtube.com", id);
  }

  lemma EmbedBranch(s: string, id: string)
    requires IsVideoId(id) && s == "https://www.youtube.com/embed/" + id
    requires IdAt(s, 30) && s[30..41] == id
    ensures AfterYouTubeCom(s, 24) == Some(30)
  {
    var tail := "embed/" + id;
    assert s == "https://www.youtube.com/" + tail;
    assert s[24] == 'e' && s[29] == '/';
    forall k | 24 <= k < 29 ensures s[k] != '/' {
      assert s[k] == "embed"[k - 24];
    }
    assert NonSlashRun(s, 24) == 5;
    forall k | 30 <= k < |s| ensures s[k] != '/' {
      assert s[k] == id[k - 30];
    }
    NoSlashAfter(s, 30, DotRun(s, 30));
    OccursBetween("https://www.youtube.com/e", "mbed/", id);
  }

  /** `.+\/` cannot end inside a run without '/'. */
  lemma {:induction false} NoSlashAfter(s: string, r: nat, m: nat)
    requires r + m <= |s|
    requires forall k :: r < k < |s| ==> s[k] != '/'
    ensures SlashThenId(s, r, m) == None
    decreases m
  {
    if m > 0 {
      NoSlashAfter(s, r, m - 1);
    }
  }

  /** `[?&]v=` is found at the last '?' or '&' after which `v=` and an id follow. */
  lemma {:induction false} QuerySkips(s: string, q: nat, m: nat, k: nat)
    requires k <= m && q + m <= |s|
    requires forall j :: q + k < j <= q + m && j < |s| ==> s[j] != '?' && s[j] != '&'
    ensures QueryThenId(s, q, m) == QueryThenId(s, q, k)
    decreases m - k
  {
    if k < m {
      QuerySkips(s, q, m - 1, k);
    }
  }

  /** `https://www.youtube.com/watch?v=<id>` gives the id. */
  lemma WatchLinkId(id: string)
    requires IsVideoId(id)
    ensures YouTubeId("https://www.youtube.com/watch?v=" + id) == Some(id)
    ensures EmbedUrl("https://www.youtube.com/watch?v=" + id) == YouTubeEmbedPrefix + id
  {
    var s := "https://www." + ("youtube.com/" + ("watch?v=" + id));
    Regroup("https://www.", "youtube.com/", "watch?v=", id);
    WatchLinkLiteral();
    YouTubeSkipsPrefix("https://www.", "youtube.com/" + ("watch?v=" + id));
    OccursBetween("https://www.", "youtube.com/", "watch?v=" + id);
    IdAtOf("https://www.youtube.com/watch?v=", id);
    WatchBranch(s, id);
    assert YouTubeAt(s, 12) == Some(32);
    assert YouTubeFrom(s, 12) == Some(32);
    SiteLiterals();
    IdLinkEmbeds(s, 12, "youtube.com", id);
  }

  lemma WatchBranch(s: string, id: string)
    requires IsVideoId(id) && s == "https://www.youtube.com/watch?v=" + id
    requires IdAt(s, 32)
    ensures AfterYouTubeCom(s, 24) == Some(32)
  {
    assert |s| == 43;
    forall k | 24 <= k < |s| ensures s[k] != '/' && !IsLineTerminator(s[k]) && (k > 29 ==> s[k] != '?' && s[k] != '&') {
      if k >= 32 {
        assert s[k] == id[k - 32];
      } else {
        assert s[k] == "watch?v="[k - 24];
      }
    }
    assert NonSlashRun(s, 24) == 19;
    assert DotRun(s, 24) == 19;
    QuerySkips(s, 24, 19, 5);
    assert s[29] == '?' && s[30] == 'v' && s[31] == '=';
  }

  /** `https://vimeo.com/<digits>` gives the digits. */
  lemma VimeoLinkId(digits: string)
    requires |digits| >= 1 && AllDigits(digits)
    ensures VimeoId("https://vimeo.com/" + digits) == Some(digits)
  {
    Regroup2("https://", "vimeo.com/", digits);
    VimeoLinkLiteral();
    VimeoAfterPrefix("https://", digits);
  }

  /** After any text without a 'v', "vimeo.com/" and digits give the digits. */
  lemma VimeoAfterPrefix(a: string, digits: string)
    requires 'v' !in a && |digits| >= 1 && AllDigits(digits)
    ensures VimeoId(a + ("vimeo.com/" + digits)) == Some(digits)
  {
    var s := a + ("vimeo.com/" + digits);
    VimeoSkipsPrefix(a, "vimeo.com/" + digits);
    OccursBetween(a, "vimeo.com/", digits);
    VimeoDigitsBranch(a, s, digits);
    VimeoIdAt(s, |a|, digits);
  }

  lemma VimeoIdAt(s: string, p: nat, digits: string)
    requires p + 10 <= |s| && VimeoFrom(s, 0) == VimeoFrom(s, p) && OccursAt(s, "vimeo.com/", p)
    requires AfterVimeoCom(s, p + 10) == Some(p + 10)
    requires DigitRun(s, p + 10) == |digits| && s[p + 10..p + 10 + |digits|] == digits
    ensures VimeoId(s) == Some(digits)
  {
    assert VimeoAt(s, p) == Some(p + 10);
  }

  lemma VimeoDigitsBranch(a: string, s: string, digits: string)
    requires |digits| >= 1 && AllDigits(digits) && s == a + ("vimeo.com/" + digits)
    ensures AfterVimeoCom(s, |a| + 10) == Some(|a| + 10)
    ensures DigitRun(s, |a| + 10) == |digits| && s[|a| + 10..|a| + 10 + |digits|] == digits
  {
    var q := |a| + 10;
    assert |s| == q + |digits|;
    forall k | q <= k < |s| ensures s[k] == digits[k - q] && IsDigit(s[k]) {
      assert s[k] == ("vimeo.com/" + digits)[k - |a|];
    }
    Mismatch(s, "channels/", q, 0);
    Mismatch(s, "groups/", q, 0);
    assert DigitRun(s, q) == |digits|;
    assert s[q..q + |digits|] == digits;
  }

  lemma OccursPrefix(s: string, t: string, u: string, i: nat)
    requires OccursAt(s, t + u, i)
    ensures OccursAt(s, t, i)
  {
    forall k | 0 <= k < |t| ensures s[i + k] == t[k] {
      assert s[i + k] == s[i..i + |t + u|][k] == (t + u)[k];
    }
    assert s[i..i + |t|] == t;
  }

  /** A YouTube URL whose id is found plays through the embed URL of that id. */
  lemma IdLinkEmbeds(url: string, i: nat, site: string, id: string)
    requires site == "youtu.be" || site == "youtube.com"
    requires OccursAt(url, site + "/", i) && YouTubeId(url) == Some(id)
    ensures EmbedUrl(url) == YouTubeEmbedPrefix + id
  {
    OccursPrefix(url, site, "/", i);
    ContainsAt(url, site, i);
  }

  lemma SiteLiterals()
    ensures "youtu.be" + "/" == "youtu.be/" && "youtube.com" + "/" == "youtube.com/"
  {
  }
}
