/** The library queries of the daemon session: artists with a name filter,
    the songs of an album in track order, the albums of an artist in year
    order, and the album cover with its placeholder fallback. Each takes the
    daemon's replies as inputs. */
module Library {
  import opened Common
  import Tags
  import StableSort

  datatype Song = Song(url: string, title: string, year: Option<i32>)

  datatype Album = Album(albumName: string, year: Option<i32>)

  // ---------------------------------------------------------------------------
  // get_artists

  /** ASCII lower-casing of one character. */
  function LowerChar(c: char): char {
    if 'A' <= c <= 'Z' then (c as int + 32) as char else c
  }

  function Lower(s: string): (r: string)
    ensures |r| == |s|
    ensures forall i :: 0 <= i < |s| ==> r[i] == LowerChar(s[i])
  {
    seq(|s|, i requires 0 <= i < |s| => LowerChar(s[i]))
  }

  predicate OccursAt(hay: string, needle: string, i: nat) {
    i + |needle| <= |hay| && hay[i..i + |needle|] == needle
  }

  /** `str::contains`: `needle` occurs in `hay` at some position. */
  predicate Contains(hay: string, needle: string) {
    exists i: nat :: i <= |hay| && OccursAt(hay, needle, i)
  }

  /** The artists whose lower-cased name contains `needle`, in their order. */
  function KeepContaining(artists: seq<string>, needle: string): (r: seq<string>)
    ensures |r| <= |artists|
  {
    if artists == [] then []
    else (if Contains(Lower(artists[0]), needle) then [artists[0]] else [])
         + KeepContaining(artists[1..], needle)
  }

  /** `get_artists`: the daemon's artist list, filtered case-insensitively
      by substring when a filter is given; a failed `List` propagates. */
  function GetArtists(reply: Result<seq<string>>, nameFilter: Option<string>): (r: Result<seq<string>>)
    ensures r.Err? <==> reply.Err?
    ensures reply.Err? ==> r.error == reply.error
  {
    match reply
    case Err(e) => Err(e)
    case Ok(artists) =>
      match nameFilter
      case None => Ok(artists)
      case Some(f) => Ok(KeepContaining(artists, Lower(f)))
  }

  /** Whether an artist name passes the filter `f`. */
  predicate Matches(artist: string, f: string) {
    Contains(Lower(artist), Lower(f))
  }

  /** `r` is `s` with some elements left out and the rest in their order. */
  ghost predicate SubsequenceOf<T>(r: seq<T>, s: seq<T>)
    decreases |s|
  {
    r == [] || (s != [] && ((r[0] == s[0] && SubsequenceOf(r[1..], s[1..])) || SubsequenceOf(r, s[1..])))
  }

  lemma {:induction false} KeepContainingInOrder(artists: seq<string>, needle: string)
    ensures SubsequenceOf(KeepContaining(artists, needle), artists)
    decreases |artists|
  {
    if artists != [] {
      var r, rest := KeepContaining(artists, needle), KeepContaining(artists[1..], needle);
      KeepContainingInOrder(artists[1..], needle);
      if Contains(Lower(artists[0]), needle) {
        assert r[0] == artists[0] && r[1..] == rest;
      } else {
        assert r == rest;
      }
    }
  }

  lemma {:induction false} KeepContainingCounts(artists: seq<string>, needle: string)
    ensures forall a :: multiset(KeepContaining(artists, needle))[a]
                          == if Contains(Lower(a), needle) then multiset(artists)[a] else 0
    decreases |artists|
  {
    if artists != [] {
      KeepContainingCounts(artists[1..], needle);
      assert artists == [artists[0]] + artists[1..];
    }
  }

  /** Without a filter the reply comes back unchanged; with filter `f` the
      result keeps, in order and with their multiplicity, exactly the
      artists whose lower-cased name contains the lower-cased `f`. */
  lemma GetArtistsFilters(artists: seq<string>, nameFilter: Option<string>)
    ensures nameFilter.None? ==> GetArtists(Ok(artists), nameFilter) == Ok(artists)
    ensures nameFilter.Some? ==>
              var r := GetArtists(Ok(artists), nameFilter).value;
              && SubsequenceOf(r, artists)
              && forall a :: multiset(r)[a] == if Matches(a, nameFilter.value) then multiset(artists)[a] else 0
  {
    if nameFilter.Some? {
      KeepContainingInOrder(artists, Lower(nameFilter.value));
      KeepContainingCounts(artists, Lower(nameFilter.value));
    }
  }

  lemma LowerIdempotent(s: string)
    ensures Lower(Lower(s)) == Lower(s)
  {
  }

  /** The filter ignores the case of its own letters. */
  lemma FilterCaseInsensitive(reply: Result<seq<string>>, f: string)
    ensures GetArtists(reply, Some(f)) == GetArtists(reply, Some(Lower(f)))
  {
    LowerIdempotent(f);
  }

  lemma {:induction false} KeepContainingEmpty(artists: seq<string>)
    ensures KeepContaining(artists, "") == artists
    decreases |artists|
  {
    if artists != [] {
      assert OccursAt(Lower(artists[0]), "", 0);
      KeepContainingEmpty(artists[1..]);
    }
  }

  /** The empty filter keeps every artist. */
  lemma EmptyFilterKeepsAll(artists: seq<string>)
    ensures GetArtists(Ok(artists), Some("")) == Ok(artists)
  {
    assert Lower("") == "";
    KeepContainingEmpty(artists);
  }

  // ---------------------------------------------------------------------------
  // get_songs

  /** The rank by which songs are sorted: `(disc, track)` as one integer. */
  function TrackRank(song: Tags.RawSong): int {
    song.number.disc as int * U64_LIMIT + song.number.track as int
  }

  /** Rust's derived order on `(u64, u64)` tuples: lexicographic. */
  predicate NumberLe(a: Tags.TrackNumber, b: Tags.TrackNumber) {
    a.disc < b.disc || (a.disc == b.disc && a.track <= b.track)
  }

  lemma TrackRankOrder(x: Tags.RawSong, y: Tags.RawSong)
    ensures TrackRank(x) <= TrackRank(y) <==> NumberLe(x.number, y.number)
  {
    var dx, tx := x.number.disc as int, x.number.track as int;
    var dy, ty := y.number.disc as int, y.number.track as int;
    if dx < dy {
      assert dx * U64_LIMIT + U64_LIMIT <= dy * U64_LIMIT;
    } else if dx > dy {
      assert dy * U64_LIMIT + U64_LIMIT <= dx * U64_LIMIT;
    }
  }

  /** One song of the reply as `get_songs` reports it: the title defaults
      to the empty string, the year is the `Date` tag parsed as `i32`. */
  function ToSong(raw: Tags.RawSong): Song {
    Song(raw.url,
         Tags.GetSingleTagValue(raw, Tags.Title, Tags.ParseString).GetOr(""),
         Tags.GetSingleTagValue(raw, Tags.Date, Tags.ParseI32))
  }

  function ToSongs(raws: seq<Tags.RawSong>): (r: seq<Song>)
    ensures |r| == |raws|
    ensures forall i :: 0 <= i < |raws| ==> r[i] == ToSong(raws[i])
  {
    seq(|raws|, i requires 0 <= i < |raws| => ToSong(raws[i]))
  }

  /** What `get_songs` returns for a `Find` reply. */
  function SongsOf(reply: Result<seq<Tags.RawSong>>): Result<seq<Song>> {
    match reply
    case Err(e) => Err(e)
    case Ok(raws) => Ok(ToSongs(StableSort.SortByRank(raws, TrackRank)))
  }

  /** `get_songs`: sorts the `Find` reply in place by track number, then
      maps each song to its URL, title and year. */
  method GetSongs(reply: Result<seq<Tags.RawSong>>) returns (r: Result<seq<Song>>)
    ensures r == SongsOf(reply)
  {
    if reply.Err? {
      return Err(reply.error);
    }
    var raws := reply.value;
    var result := new Tags.RawSong[|raws|](i requires 0 <= i < |raws| => raws[i]);
    assert result[..] == raws;
    StableSort.SortInPlace(result, TrackRank);
    r := Ok(ToSongs(result[..]));
  }

  /** The songs come out as the `Find` reply reordered: a permutation of
      it, non-decreasing by `(disc, track)`, songs with equal numbers in
      reply order. */
  lemma SongsOrderedByNumber(raws: seq<Tags.RawSong>)
    ensures var sorted := StableSort.SortByRank(raws, TrackRank);
            && SongsOf(Ok(raws)) == Ok(ToSongs(sorted))
            && multiset(sorted) == multiset(raws)
            && (forall i, j :: 0 <= i < j < |sorted| ==> NumberLe(sorted[i].number, sorted[j].number))
            && forall k :: StableSort.WithRank(sorted, TrackRank, k) == StableSort.WithRank(raws, TrackRank, k)
  {
    var sorted := StableSort.SortByRank(raws, TrackRank);
    StableSort.SortByRankIsStableSort(raws, TrackRank);
    forall i, j | 0 <= i < j < |sorted| ensures NumberLe(sorted[i].number, sorted[j].number) {
      TrackRankOrder(sorted[i], sorted[j]);
    }
  }

  /** The title is the first `Title` value, or empty when there is none;
      the year is absent exactly when the `Date` tag is missing, has no
      value, or its first value is not an `i32`. */
  lemma SongFieldsFromTags(raw: Tags.RawSong)
    ensures ToSong(raw).url == raw.url
    ensures ToSong(raw).title == if Tags.Title in raw.tags && raw.tags[Tags.Title] != [] then raw.tags[Tags.Title][0] else ""
    ensures ToSong(raw).year.None? <==>
              Tags.Date !in raw.tags || raw.tags[Tags.Date] == [] || Tags.ParseI32(raw.tags[Tags.Date][0]).None?
    ensures ToSong(raw).year.Some? ==> Tags.ParseI32(raw.tags[Tags.Date][0]) == ToSong(raw).year
  {
  }

  // ---------------------------------------------------------------------------
  // get_albums

  /** The year of an album: that of its first song in track order. */
  function FirstYear(songs: seq<Song>): Option<i32> {
    if songs == [] then None else songs[0].year
  }

  /** The rank by which albums are sorted: an absent year below every `i32`. */
  function YearRank(album: Album): int {
    match album.year
    case None => I32_MIN - 1
    case Some(y) => y as int
  }

  /** Rust's derived order on `Option<i32>`: `None` before every `Some`. */
  predicate YearLe(a: Option<i32>, b: Option<i32>) {
    match (a, b)
    case (None, _) => true
    case (Some(_), None) => false
    case (Some(x), Some(y)) => x <= y
  }

  lemma YearRankOrder(x: Album, y: Album)
    ensures YearRank(x) <= YearRank(y) <==> YearLe(x.year, y.year)
  {
  }

  /** The albums `get_albums` collects, in list order, before sorting; the
      first failing `Find` is the error. */
  function CollectAlbums(names: seq<string>, find: string -> Result<seq<Tags.RawSong>>): (r: Result<seq<Album>>)
    ensures r.Ok? ==> |r.value| == |names|
  {
    if names == [] then Ok([])
    else
      match CollectAlbums(names[..|names| - 1], find)
      case Err(e) => Err(e)
      case Ok(albums) =>
        var name := names[|names| - 1];
        match SongsOf(find(name))
        case Err(e) => Err(e)
        case Ok(songs) => Ok(albums + [Album(name, FirstYear(songs))])
  }

  /** What `get_albums` returns for an album-list reply, given the daemon's
      `Find` reply for each album name. */
  function AlbumsOf(listReply: Result<seq<string>>, find: string -> Result<seq<Tags.RawSong>>): Result<seq<Album>> {
    match listReply
    case Err(e) => Err(e)
    case Ok(names) =>
      match CollectAlbums(names, find)
      case Err(e) => Err(e)
      case Ok(albums) => Ok(StableSort.SortByRank(albums, YearRank))
  }

  /** `get_albums`: one `get_songs` per album name, pushing each album with
      the year of its first song, then a stable in-place sort by year. */
  method GetAlbums(listReply: Result<seq<string>>, find: string -> Result<seq<Tags.RawSong>>)
    returns (r: Result<seq<Album>>)
    ensures r == AlbumsOf(listReply, find)
  {
    if listReply.Err? {
      return Err(listReply.error);
    }
    var albumNames := listReply.value;
    var albums: seq<Album> := [];
    for k := 0 to |albumNames|
      invariant CollectAlbums(albumNames[..k], find) == Ok(albums)
    {
      assert albumNames[..k + 1][..k] == albumNames[..k];
      var songs := GetSongs(find(albumNames[k]));
      if songs.Err? {
        CollectAlbumsPrefixErr(albumNames, k + 1, find);
        return Err(songs.error);
      }
      var year := if songs.value == [] then None else songs.value[0].year;
      albums := albums + [Album(albumNames[k], year)];
    }
    assert albumNames[..|albumNames|] == albumNames;
    var sorted := new Album[|albums|](i requires 0 <= i < |albums| => albums[i]);
    assert sorted[..] == albums;
    StableSort.SortInPlace(sorted, YearRank);
    r := Ok(sorted[..]);
  }

  /** A failure in a prefix of the names is the failure of the whole. */
  lemma {:induction false} CollectAlbumsPrefixErr(names: seq<string>, k: nat, find: string -> Result<seq<Tags.RawSong>>)
    requires k <= |names| && CollectAlbums(names[..k], find).Err?
    ensures CollectAlbums(names, find) == CollectAlbums(names[..k], find)
    decreases |names| - k
  {
    if k < |names| {
      var init := names[..|names| - 1];
      assert init[..k] == names[..k];
      CollectAlbumsPrefixErr(init, k, find);
    } else {
      assert names[..k] == names;
    }
  }

  /** Collecting fails exactly when some name's `find` fails. */
  lemma {:induction false} CollectAlbumsErr(names: seq<string>, find: string -> Result<seq<Tags.RawSong>>)
    ensures CollectAlbums(names, find).Err? <==> exists i :: 0 <= i < |names| && find(names[i]).Err?
    decreases |names|
  {
    if names != [] {
      var init := names[..|names| - 1];
      CollectAlbumsErr(init, find);
      if exists i :: 0 <= i < |init| && find(init[i]).Err? {
        var i :| 0 <= i < |init| && find(init[i]).Err?;
        assert find(names[i]).Err?;
      }
    }
  }

  /** A successful collection holds, at each position, the album named
      there with the year of its first song. */
  lemma {:induction false} CollectAlbumsValues(names: seq<string>, find: string -> Result<seq<Tags.RawSong>>)
    ensures CollectAlbums(names, find).Ok? ==>
              forall i :: 0 <= i < |names| ==>
                && SongsOf(find(names[i])).Ok?
                && CollectAlbums(names, find).value[i] == Album(names[i], FirstYear(SongsOf(find(names[i])).value))
    decreases |names|
  {
    if names != [] {
      var init := names[..|names| - 1];
      CollectAlbumsValues(init, find);
      assert forall i :: 0 <= i < |init| ==> init[i] == names[i];
    }
  }

  /** `get_albums` yields one album per listed name, each with the year of
      the first song `get_songs` returns for it (absent when there is
      none), ordered by year with every absent year first and equal years
      in list order. It fails exactly when the list or one of the finds
      fails. */
  lemma AlbumsOneByNameSortedByYear(listReply: Result<seq<string>>, find: string -> Result<seq<Tags.RawSong>>)
    ensures AlbumsOf(listReply, find).Err? <==>
              listReply.Err? || exists i :: 0 <= i < |listReply.value| && find(listReply.value[i]).Err?
    ensures AlbumsOf(listReply, find).Ok? ==>
              var names, r := listReply.value, AlbumsOf(listReply, find).value;
              var listed := seq(|names|, i requires 0 <= i < |names| =>
                                  Album(names[i], FirstYear(SongsOf(find(names[i])).value)));
              && |r| == |names|
              && multiset(r) == multiset(listed)
              && (forall i, j :: 0 <= i < j < |r| ==> YearLe(r[i].year, r[j].year))
              && forall k :: StableSort.WithRank(r, YearRank, k) == StableSort.WithRank(listed, YearRank, k)
  {
    if listReply.Ok? {
      var names := listReply.value;
      CollectAlbumsErr(names, find);
      CollectAlbumsValues(names, find);
      var collected := CollectAlbums(names, find);
      if collected.Ok? {
        var r := StableSort.SortByRank(collected.value, YearRank);
        StableSort.SortByRankIsStableSort(collected.value, YearRank);
        assert collected.value == seq(|names|, i requires 0 <= i < |names| =>
                                   Album(names[i], FirstYear(SongsOf(find(names[i])).value)));
        forall i, j | 0 <= i < j < |r| ensures YearLe(r[i].year, r[j].year) {
          YearRankOrder(r[i], r[j]);
        }
      }
    }
  }

  /** In the sorted albums every album without a year precedes every album
      with one. */
  lemma AbsentYearsFirst(listReply: Result<seq<string>>, find: string -> Result<seq<Tags.RawSong>>, i: nat, j: nat)
    requires AlbumsOf(listReply, find).Ok?
    requires i < |AlbumsOf(listReply, find).value| && j < |AlbumsOf(listReply, find).value|
    requires AlbumsOf(listReply, find).value[i].year.None?
    requires AlbumsOf(listReply, find).value[j].year.Some?
    ensures i < j
  {
    AlbumsOneByNameSortedByYear(listReply, find);
    var r := AlbumsOf(listReply, find).value;
    assert !YearLe(r[j].year, r[i].year);
  }

  // ---------------------------------------------------------------------------
  // album_art

  /** The size `album_art` asks `scale_down_if_needed` to fit. */
  const MaxArtSize: nat := 256

  /** `album_art`. `artReply(url)` is the daemon's reply to the album-art
      request for `url` (`None` when the daemon has no art);
      `scale(bytes, max)` stands for `scale_down_if_needed(bytes, max).ok()`,
      called with `MaxArtSize`; `placeholder` is the bundled fallback image. */
  method AlbumArt(findReply: Result<seq<Tags.RawSong>>, artReply: string -> Result<Option<Bytes>>,
                  scale: (Bytes, nat) -> Option<Bytes>, placeholder: Bytes)
    returns (r: Result<Bytes>)
    ensures findReply.Err? ==> r == Err(findReply.error)
    ensures findReply.Ok? && findReply.value == [] ==> r == Ok(placeholder)
    ensures findReply.Ok? && findReply.value != [] ==>
              var url := SongsOf(findReply).value[0].url;
              match artReply(url)
              case Err(e) => r == Err(e)
              case Ok(None) => r == Ok(placeholder)
              case Ok(Some(bytes)) => r == Ok(scale(bytes, MaxArtSize).GetOr(placeholder))
    // Once both daemon calls succeed the result is never an error, and
    // anything but the placeholder is the scaled art the daemon returned.
    ensures findReply.Ok? && findReply.value != [] && artReply(SongsOf(findReply).value[0].url).Ok? ==>
              && r.Ok?
              && (r.value != placeholder ==>
                    exists b :: artReply(SongsOf(findReply).value[0].url) == Ok(Some(b))
                                && scale(b, MaxArtSize) == Some(r.value))
  {
    var songs := GetSongs(findReply);
    if songs.Err? {
      return Err(songs.error);
    }
    var url := if songs.value == [] then None else Some(songs.value[0].url);
    if url.None? {
      return Ok(placeholder);
    }
    var reply := artReply(url.value);
    if reply.Err? {
      return Err(reply.error);
    }
    var art := match reply.value
               case None => None
               case Some(bytes) => scale(bytes, MaxArtSize);
    if art.Some? {
      assert reply == Ok(Some(reply.value.value)) && scale(reply.value.value, MaxArtSize) == art;
      r := Ok(art.value);
    } else {
      r := Ok(placeholder);
    }
  }
}
