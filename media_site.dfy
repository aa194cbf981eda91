/**
 * The personal site's server helpers: pulling a YouTube video id out of a
 * link, turning a channel id into its uploads playlist, the twelve-hour music
 * cache, and the photo folder's image filter. The environment variable, the
 * clock, the playlist download and the folder listing are parameters.
 */
module MediaSite {
  import opened Wrappers
  import opened Text

  const ShortHost: string := "youtu.be/"
  const WatchKey: string := "v="
  /** The watch URL up to its query key; it has no 'v'. */
  const WatchHead: string := "https://www.youtube.com/watch?"
  const WatchPrefix: string := WatchHead + WatchKey
  const PlaylistPrefix: string := "https://www.youtube.com/playlist?list="

  /** Seconds a non-empty music cache is served without refetching (12 hours). */
  const CacheDuration: real := 43200.0

  // ---------------------------------------------------------------------------
  // get_video_id
  // ---------------------------------------------------------------------------

  /**
   * `get_video_id`: the id in a youtu.be link, else the `v=` parameter, else
   * the url itself. The id starts right after the first marker and runs to the
   * end of the url, to the first `?` (`&` for `v=`), or to the next marker,
   * whichever comes first.
   */
  function GetVideoId(url: string): (r: string)
    ensures exists i :: Occurs(url, r, i)
    ensures Contains(url, ShortHost) ==> !Contains(r, "?") && !Contains(r, ShortHost)
    ensures Contains(url, ShortHost) ==>
      var tail := After(url, ShortHost);
      r <= tail && (|r| == |tail| || Occurs(tail, "?", |r|) || Occurs(tail, ShortHost, |r|))
    ensures Contains(url, ShortHost) ==>
      var tail := After(url, ShortHost);
      forall j :: 0 <= j < |r| ==> !Occurs(tail, "?", j) && !Occurs(tail, ShortHost, j)
    ensures !Contains(url, ShortHost) && Contains(url, WatchKey) ==> !Contains(r, "&") && !Contains(r, WatchKey)
    ensures !Contains(url, ShortHost) && Contains(url, WatchKey) ==>
      var tail := After(url, WatchKey);
      r <= tail && (|r| == |tail| || Occurs(tail, "&", |r|) || Occurs(tail, WatchKey, |r|))
    ensures !Contains(url, ShortHost) && Contains(url, WatchKey) ==>
      var tail := After(url, WatchKey);
      forall j :: 0 <= j < |r| ==> !Occurs(tail, "&", j) && !Occurs(tail, WatchKey, j)
    ensures !Contains(url, ShortHost) && !Contains(url, WatchKey) ==> r == url
  {
    if Contains(url, ShortHost) then
      var piece := SecondField(url, ShortHost);
      var r := Before(piece, "?");
      PieceOfPiece(url, ShortHost, "?");
      BeforeKeepsAbsence(piece, "?", ShortHost);
      CutPoint(url, ShortHost, "?");
      r
    else if Contains(url, WatchKey) then
      var piece := SecondField(url, WatchKey);
      var r := Before(piece, "&");
      PieceOfPiece(url, WatchKey, "&");
      BeforeKeepsAbsence(piece, "&", WatchKey);
      CutPoint(url, WatchKey, "&");
      r
    else
      assert Occurs(url, url, 0);
      url
  }

  /** The twice-cut piece ends at the end of what follows the marker, at a `stop`, or at the next marker. */
  lemma CutPoint(url: string, sep: string, stop: string)
    requires Contains(url, sep)
    ensures var tail := After(url, sep);
      var r := Before(SecondField(url, sep), stop);
      r <= tail && (|r| == |tail| || Occurs(tail, stop, |r|) || Occurs(tail, sep, |r|))
    ensures var tail := After(url, sep);
      var r := Before(SecondField(url, sep), stop);
      forall j :: 0 <= j < |r| ==> !Occurs(tail, sep, j) && (|stop| != 1 || !Occurs(tail, stop, j))
  {
    var tail := After(url, sep);
    var piece := SecondField(url, sep);
    var r := Before(piece, stop);
    if Contains(piece, stop) {
      OccursInPrefix(piece, tail, stop, |r|);
    }
    if |stop| == 1 {
      NoEarlierStop(piece, tail, stop);
    }
  }

  /** A one-character stop found nowhere before the cut in the piece is found nowhere before it in the longer text either. */
  lemma NoEarlierStop(piece: string, tail: string, stop: string)
    requires piece <= tail && |stop| == 1
    ensures forall j :: 0 <= j < |Before(piece, stop)| ==> !Occurs(tail, stop, j)
  {
    var r := Before(piece, stop);
    forall j | 0 <= j < |r|
      ensures !Occurs(tail, stop, j)
    {
      assert |r| <= |piece|;
      assert tail[j..j + 1] == piece[j..j + 1];
      assert Occurs(tail, stop, j) == Occurs(piece, stop, j);
      if !Contains(piece, stop) {
        assert IndexOf(piece, stop).None?;
      }
    }
  }

  /** The cut-down piece is still a contiguous part of the url. */
  lemma PieceOfPiece(url: string, sep: string, stop: string)
    requires Contains(url, sep)
    ensures Occurs(url, Before(SecondField(url, sep), stop), |url| - |After(url, sep)|)
  {
    var tail := After(url, sep);
    var r := Before(SecondField(url, sep), stop);
    var k := |url| - |tail|;
    assert r <= tail;
    assert url[k..k + |r|] == tail[..|r|];
  }

  /** A prefix of a string without `pat` has no `pat` either. */
  lemma BeforeKeepsAbsence(s: string, sep: string, pat: string)
    requires !Contains(s, pat)
    ensures !Contains(Before(s, sep), pat)
  {
    var r := Before(s, sep);
    forall j | Occurs(r, pat, j)
      ensures Occurs(s, pat, j)
    {
      assert s[j..j + |pat|] == r[j..j + |pat|];
    }
  }

  /** The characters YouTube uses in video ids: letters, digits, `-` and `_`. */
  predicate IdChar(c: char)
  {
    'a' <= c <= 'z' || 'A' <= c <= 'Z' || '0' <= c <= '9' || c == '-' || c == '_'
  }

  predicate IsVideoId(id: string)
  {
    forall i :: 0 <= i < |id| ==> IdChar(id[i])
  }

  /** A pattern holding a character that ids never use cannot occur in an id. */
  lemma IdLacks(id: string, pat: string, k: nat)
    requires IsVideoId(id) && k < |pat| && !IdChar(pat[k])
    ensures forall j :: !Occurs(id, pat, j)
    ensures !Contains(id, pat)
  {
    forall j
      ensures !Occurs(id, pat, j)
    {
      if 0 <= j && j + |pat| <= |id| {
        assert id[j..j + |pat|][k] == id[j + k];
      }
    }
  }

  /** If `pat` occurs at k and nowhere before, `find` answers k. */
  lemma FirstOccurrence(s: string, pat: string, k: nat)
    requires Occurs(s, pat, k) && forall j :: 0 <= j < k ==> !Occurs(s, pat, j)
    ensures IndexOf(s, pat) == Some(k)
  {
  }

  /** No occurrence before k when no character before k is the pattern's first. */
  lemma NoneBefore(s: string, pat: string, k: nat)
    requires |pat| > 0 && k <= |s| && forall j :: 0 <= j < k ==> s[j] != pat[0]
    ensures forall j :: 0 <= j < k ==> !Occurs(s, pat, j)
  {
    forall j | 0 <= j < k
      ensures !Occurs(s, pat, j)
    {
      if j + |pat| <= |s| {
        assert s[j..j + |pat|][0] == s[j];
      }
    }
  }

  /** A "youtu.be/" starting inside the id would lie within the id, which has no '.'. */
  lemma IdPartNotShortHost(id: string, j: nat)
    requires IsVideoId(id) && 32 <= j && j + 9 <= 32 + |id|
    ensures !Occurs(WatchPrefix + id, ShortHost, j)
  {
    var url := WatchPrefix + id;
    assert |WatchPrefix| == 32;
    assert url[32..] == id;
    assert url[j..j + 9] == id[j - 32..j - 32 + 9];
    IdLacks(id, ShortHost, 5);
    assert !Occurs(id, ShortHost, j - 32);
  }

  /** A "youtu.be/" starting inside the watch prefix would need a 'y' followed five later by a '.'. */
  lemma PrefixPartNotShortHost(id: string, j: nat)
    requires IsVideoId(id) && j < 32 && j + 9 <= 32 + |id|
    ensures !Occurs(WatchPrefix + id, ShortHost, j)
  {
    var url := WatchPrefix + id;
    assert |WatchPrefix| == 32;
    var w := url[j..j + 9];
    assert w[0] == url[j];
    assert w[5] == url[j + 5];
    if j + 5 >= 32 {
      assert url[j + 5] == id[j + 5 - 32];
      assert IdChar(id[j + 5 - 32]);
    }
  }

  /** In a watch link the first "v=" is the one closing the prefix, at index 30. */
  lemma FirstWatchKey(id: string)
    ensures IndexOf(WatchPrefix + id, WatchKey) == Some(30)
  {
    var url := WatchPrefix + id;
    assert |WatchHead| == 30;
    assert url == WatchHead + (WatchKey + id);
    assert 'v' !in WatchHead;
    forall j | 0 <= j < 30
      ensures url[j] != WatchKey[0]
    {
      assert url[j] == WatchHead[j];
    }
    assert url[30..32] == WatchKey;
    assert Occurs(url, WatchKey, 30);
    NoneBefore(url, WatchKey, 30);
    FirstOccurrence(url, WatchKey, 30);
  }

  /** The watch links the music cache builds lead back to their ids. */
  lemma {:induction false} WatchLinkRoundTrip(id: string)
    requires IsVideoId(id)
    ensures GetVideoId(WatchPrefix + id) == id
  {
    var url := WatchPrefix + id;
    assert |WatchPrefix| == 32;
    // No "youtu.be/" anywhere: not in the fixed prefix, not across it, not in the id.
    forall j
      ensures !Occurs(url, ShortHost, j)
    {
      if 0 <= j && j + 9 <= |url| {
        if j >= 32 {
          IdPartNotShortHost(id, j);
        } else {
          PrefixPartNotShortHost(id, j);
        }
      }
    }
    assert !Contains(url, ShortHost);
    // The first "v=" ends the prefix.
    FirstWatchKey(id);
    assert After(url, WatchKey) == id;
    IdLacks(id, WatchKey, 1);
    IdLacks(id, "&", 0);
  }

  /** Short links lead back to their ids too. */
  lemma {:induction false} ShortLinkRoundTrip(id: string)
    requires IsVideoId(id)
    ensures GetVideoId("https://youtu.be/" + id) == id
  {
    var url := "https://youtu.be/" + id;
    assert url == "https://" + (ShortHost + id);
    assert 'y' !in "https://";
    forall j | 0 <= j < 8
      ensures url[j] != ShortHost[0]
    {
      assert url[j] == "https://"[j];
    }
    assert url[8..17] == ShortHost;
    assert Occurs(url, ShortHost, 8);
    NoneBefore(url, ShortHost, 8);
    FirstOccurrence(url, ShortHost, 8);
    assert After(url, ShortHost) == id;
    IdLacks(id, ShortHost, 5);
    IdLacks(id, "?", 0);
  }

  // ---------------------------------------------------------------------------
  // get_latest_songs
  // ---------------------------------------------------------------------------

  /** A channel id `UC...` becomes its uploads playlist `UU...`; any other id is used as it is. */
  function PlaylistId(channelId: string): (r: string)
    ensures StartsWith(channelId, "UC") ==> r == "UU" + channelId[2..]
    ensures !StartsWith(channelId, "UC") ==> r == channelId
    ensures |r| == |channelId|
  {
    if StartsWith(channelId, "UC") then
      assert Occurs(channelId, "UC", 0);
      FirstOccurrence(channelId, "UC", 0);
      ReplaceFirst(channelId, "UC", "UU")
    else channelId
  }

  /** Rewriting twice changes nothing more: an uploads id never starts with `UC`. */
  lemma PlaylistIdIdempotent(channelId: string)
    ensures PlaylistId(PlaylistId(channelId)) == PlaylistId(channelId)
  {
    if StartsWith(channelId, "UC") {
      assert PlaylistId(channelId)[1] == 'U';
    }
  }

  /** `[f"https://www.youtube.com/watch?v={entry['id']}" for entry in info['entries']]` */
  function WatchUrls(ids: seq<string>): (urls: seq<string>)
    ensures |urls| == |ids|
  {
    seq(|ids|, i requires 0 <= i < |ids| => WatchPrefix + ids[i])
  }

  /** Every cached song link gives back the id it was built from. */
  lemma CachedSongsRoundTrip(ids: seq<string>)
    requires forall i :: 0 <= i < |ids| ==> IsVideoId(ids[i])
    ensures forall i :: 0 <= i < |ids| ==> GetVideoId(WatchUrls(ids)[i]) == ids[i]
  {
    forall i | 0 <= i < |ids|
      ensures GetVideoId(WatchUrls(ids)[i]) == ids[i]
    {
      WatchLinkRoundTrip(ids[i]);
    }
  }

  /** What the playlist download did: listed entries, answered without entries, or raised. */
  datatype Fetch = Entries(ids: seq<string>) | NoEntries | Raised

  /** The global `MUSIC_CACHE` dictionary. */
  class MusicCache {
    var data: seq<string>
    var lastUpdated: real

    constructor ()
      ensures data == [] && lastUpdated == 0.0
    {
      data := [];
      lastUpdated := 0.0;
    }

    /**
     * `get_latest_songs`. `channelId` is `MUSIC_CHANNEL_ID` (empty when unset),
     * `now` the clock at the call, `fetch` what the download of `requested`
     * yields and `fetchedAt` the clock after it.
     */
    method GetLatestSongs(channelId: string, now: real, fetch: Fetch, fetchedAt: real)
      returns (songs: seq<string>, requested: Option<string>)
      modifies this
      ensures channelId == "" ==>
        songs == [] && requested == None && data == old(data) && lastUpdated == old(lastUpdated)
      ensures channelId != "" && now - old(lastUpdated) < CacheDuration && old(data) != [] ==>
        songs == old(data) && requested == None && data == old(data) && lastUpdated == old(lastUpdated)
      ensures channelId != "" && !(now - old(lastUpdated) < CacheDuration && old(data) != []) ==>
        && requested == Some(PlaylistPrefix + PlaylistId(channelId))
        && (fetch.Entries? ==> songs == WatchUrls(fetch.ids) && data == songs && lastUpdated == fetchedAt)
        && (fetch.NoEntries? ==> songs == [] && data == old(data) && lastUpdated == old(lastUpdated))
        && (fetch.Raised? ==> songs == old(data) && data == old(data) && lastUpdated == old(lastUpdated))
    {
      if channelId == "" {
        return [], None;
      }
      if now - lastUpdated < CacheDuration && data != [] {
        return data, None;
      }
      var playlistId := if StartsWith(channelId, "UC") then ReplaceFirst(channelId, "UC", "UU") else channelId;
      assert playlistId == PlaylistId(channelId);
      requested := Some(PlaylistPrefix + playlistId);
      match fetch
      case Raised =>
        songs := data;
      case NoEntries =>
        songs := [];
      case Entries(ids) =>
        var urls := WatchUrls(ids);
        data := urls;
        lastUpdated := fetchedAt;
        songs := urls;
    }
  }

  // ---------------------------------------------------------------------------
  // get_photos
  // ---------------------------------------------------------------------------

  /** The lower-cased name ends in one of the five image extensions. */
  predicate IsImage(name: string)
  {
    var n := Lower(name);
    EndsWith(n, ".png") || EndsWith(n, ".jpg") || EndsWith(n, ".jpeg") || EndsWith(n, ".gif") || EndsWith(n, ".webp")
  }

  /** `get_photos`: the folder's file names that are images, in listing order. */
  function GetPhotos(files: seq<string>): (r: seq<string>)
    ensures |r| <= |files|
    ensures forall f :: f in r <==> f in files && IsImage(f)
  {
    if files == [] then []
    else (if IsImage(files[0]) then [files[0]] else []) + GetPhotos(files[1..])
  }

  /** Filtering distributes over concatenation, so listing order is kept. */
  lemma {:induction false} GetPhotosAppend(a: seq<string>, b: seq<string>)
    ensures GetPhotos(a + b) == GetPhotos(a) + GetPhotos(b)
  {
    if a != [] {
      var head := if IsImage(a[0]) then [a[0]] else [];
      assert (a + b)[0] == a[0];
      assert (a + b)[1..] == a[1..] + b;
      GetPhotosAppend(a[1..], b);
      calc {
        GetPhotos(a + b);
        head + GetPhotos(a[1..] + b);
        head + (GetPhotos(a[1..]) + GetPhotos(b));
        (head + GetPhotos(a[1..])) + GetPhotos(b);
        GetPhotos(a) + GetPhotos(b);
      }
    } else {
      assert a + b == b;
    }
  }

  /** Filtering an already filtered list changes nothing. */
  lemma {:induction false} GetPhotosIdempotent(files: seq<string>)
    ensures GetPhotos(GetPhotos(files)) == GetPhotos(files)
  {
    if files != [] {
      var head := if IsImage(files[0]) then [files[0]] else [];
      GetPhotosAppend(head, GetPhotos(files[1..]));
      GetPhotosIdempotent(files[1..]);
      if IsImage(files[0]) {
        assert GetPhotos(head) == head by {
          assert head[1..] == [];
        }
      }
    }
  }

  /** Upper-case extensions count: `HOLIDAY.JPG` is kept. */
  lemma UpperCaseExtension()
    ensures GetPhotos(["HOLIDAY.JPG", "notes.txt"]) == ["HOLIDAY.JPG"]
  {
    var n := Lower("HOLIDAY.JPG");
    assert n[|n| - 4..] == ".jpg";
    assert IsImage("HOLIDAY.JPG");
    var t := Lower("notes.txt");
    assert t[|t| - 4..] == ".txt" && t[|t| - 5..] == "s.txt";
    assert !IsImage("notes.txt");
    assert ["HOLIDAY.JPG", "notes.txt"][1..] == ["notes.txt"];
    assert ["notes.txt"][1..] == [];
  }
}
