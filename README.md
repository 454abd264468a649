# rump daemon session and push channels, in Dafny

rump is a small web front end for a Music Player Daemon (MPD). This project models the part of it that
talks to the daemon (`src/mpd.rs`) and the two WebSocket push loops of `src/main.rs`. It also proves
what those parts promise.

- **Tags** (`tags.dfy`): `get_single_tag_value` takes the first value of a song's tag and parses it
  with the target type's `FromStr`. `i32::from_str` is modelled exactly: an optional sign, at least
  one digit, and the `i32` range. The proofs show that formatting and parsing are a round trip, and
  that a date such as `1999-05-12` is not a year.
- **StableSort** (`stable_sort.dfy`): `sort_by_key`, the stable in-place sort that `get_songs` and
  `get_albums` apply to their vectors. It is an insertion sort on an `array`, proved equal to a
  functional specification. That specification is proved to be a permutation, sorted, and stable.
- **Library** (`library.dfy`):
  - `get_artists` keeps the artists whose lower-cased name contains the lower-cased filter.
  - `get_songs` sorts the `find` reply by `(disc, track)` and maps each song to its URI, title and
    year.
  - `get_albums` makes one `find` per listed album name and takes the year of that album's first
    song. It then sorts by year with `None` first.
  - `album_art` uses the first song's art, scaled down, and falls back to the placeholder image.
- **Projections** (`projections.dfy`): `get_status` and `get_playlist`, the view models computed from
  one batched daemon reply. They are stated against a `Snapshot` of the daemon's queue and player.
- **Control** (`control.dfy`): `play_album`, `toggle_repeat` and `toggle_random` as command sequences
  against a `Daemon` object. The daemon holds the queue, the current song, the two flags, the log of
  the commands it received, and a script of their outcomes.
- **PushLoop** (`push_loop.dfy`): `handle_ws_status` and `handle_ws_playlist`. Each connects, sends a
  first snapshot, then sends again on every player or queue change. It stops at a close, at the end of
  the stream, or at the first failed send.

Each daemon round trip is an input: either a reply value or an error. A scripted outcome sequence
plays the same role for the `Daemon` object.

The model follows the code as written:
- There is no album-art cache.
- `scale_down_if_needed` resizes an image wider than 256 pixels to 256×256 and re-encodes it as PNG.
  The aspect ratio is not kept.
- The playlist channel, like the status channel, reacts only to `Player` and `Queue` changes. It
  ignores `Options`.
- An entry's `playing` flag depends only on the current song's id, not on the play state.

## Model

| member | source | states |
|---|---|---|
| Tags.FirstTagValue | src/mpd.rs:56-58 | the value is present exactly when the song has the tag with at least one value, and it is the first value |
| Tags.GetSingleTagValue | src/mpd.rs:49-60 | absent when the tag is missing or empty; otherwise the parse of the first value |
| Tags.ParseFormatI32 | src/mpd.rs:59 | every `i32` formatted in decimal parses back to itself |
| Tags.InnerDashIsNotI32 | src/mpd.rs:59 | a text with a `-` after its first character does not parse as `i32` (a full date yields no year) |
| Tags.ParsedI32Shape | src/mpd.rs:59 | what parses as `i32` is an optional sign followed by one or more decimal digits only |
| StableSort.SortInPlace | src/mpd.rs:128 | the array ends as the stable sort by rank of its old contents |
| StableSort.SortByRankIsStableSort | src/mpd.rs:195 | the stable sort is a permutation, is non-decreasing by rank, and keeps elements of equal rank in input order |
| Library.GetArtists | src/mpd.rs:96-111 | a failed `List` is the error, unchanged; any other reply succeeds |
| Library.GetArtistsFilters | src/mpd.rs:100-110 | without a filter the list is returned unchanged; with one, the result keeps in order and with full multiplicity exactly the artists whose lower-cased name contains the lower-cased filter |
| Library.FilterCaseInsensitive | src/mpd.rs:100 | a filter and its lower-cased form select the same artists |
| Library.EmptyFilterKeepsAll | src/mpd.rs:103-105 | the empty filter keeps every artist |
| Library.TrackRankOrder | src/mpd.rs:128 | the integer sort rank orders songs as Rust orders `(disc, track)` tuples |
| Library.GetSongs | src/mpd.rs:113-140 | the result is the reply stably sorted by track number, each song mapped to URI, title and year; a failed `find` is the error |
| Library.SongsOrderedByNumber | src/mpd.rs:127-139 | the songs are a permutation of the reply, non-decreasing in `(disc, track)`, and songs with equal numbers keep reply order |
| Library.SongFieldsFromTags | src/mpd.rs:131-137 | the title is the first `Title` value or empty; the year is absent exactly when `Date` is missing, empty or not an `i32` |
| Library.YearRankOrder | src/mpd.rs:195 | the integer sort rank orders albums as Rust orders `Option<i32>`: `None` first |
| Library.GetAlbums | src/mpd.rs:172-197 | the loop over album names and the final sort give exactly the collected albums stably sorted by year |
| Library.AlbumsOneByNameSortedByYear | src/mpd.rs:185-196 | fails exactly when the list or some `find` fails; otherwise one album per name with the year of its first song, as a permutation, ordered by year, equal years in list order |
| Library.AbsentYearsFirst | src/mpd.rs:195 | every album without a year precedes every album with one |
| Library.AlbumArt | src/mpd.rs:142-170 | a failed `find` or art request is the error; an album with no songs, no art, or art that does not scale gives the placeholder; otherwise the scaled art of the first song in track order; once both daemon calls succeed the result is never an error, and anything but the placeholder is the daemon's art scaled to 256 |
| Projections.GetStatus | src/mpd.rs:199-248 | the play state is the daemon's |
| Projections.StatusFlags | src/mpd.rs:209-246 | `has_song`, `has_next`, `has_prev` and `ubdating_db` as the replies determine them; `has_next` implies `has_song`; the mode flags and times are copied |
| Projections.StoppedHasNoNeighbours | src/mpd.rs:211-215 | a stopped player has neither a next nor a previous song |
| Projections.NoCurrentSongNoFields | src/mpd.rs:217-225 | without a current song, title, artist and album are absent |
| Projections.StatusMatchesSnapshot | src/mpd.rs:199-248 | against the daemon state: next exists iff not stopped and a song follows the current one; previous iff not stopped with a current song; title is the current song's |
| Projections.EmptyStoppedStatus | src/mpd.rs:209-225 | an empty, stopped daemon shows no song and no neighbours |
| Projections.GetPlaylist | src/mpd.rs:305-330 | one entry per queued song, with the queue ids in queue order |
| Projections.PlayingByIdEquality | src/mpd.rs:318-326 | an entry is playing iff its id equals the current song's; its title is the first `Title` value or empty |
| Projections.AtMostOnePlaying | src/mpd.rs:325-327 | no entry plays without a current song; with distinct queue ids at most one plays, and exactly one when the current song is queued |
| Projections.PlaylistMatchesSnapshot | src/mpd.rs:305-330 | against the daemon state: the entries list the queue in order, and the entry at the current position is the single one playing |
| Control.Daemon.Clear | src/mpd.rs:339-344 | a successful clear empties the queue and forgets the current song; a failed one changes nothing |
| Control.Daemon.PlaySong | src/mpd.rs:276-283 | plays the entry with that id when the daemon accepts and the id is queued |
| Control.PlayAlbum | src/mpd.rs:356-368 | stops at the first failing step (clear, find, add list, play), and then the queue and current song are those that step left; otherwise the queue holds exactly the album's URIs in track order under consecutive ids from the daemon's next id, and the play command names the first of them, which plays when the daemon accepts; an empty album sends neither the add list nor a play command; the repeat and random flags never change; it also gives the daemon's next id (advanced by the album's length exactly when the add list succeeds) and how many scripted outcomes the call used, so later commands can be reasoned about |
| Control.ToggleRepeat | src/mpd.rs:370-380 | reads the status, then sets the negated repeat flag; succeeds iff both commands do, and the flag ends negated exactly then; queue, current song, next id and the other flag are unchanged; one scripted outcome is used when the status read fails, two otherwise |
| Control.ToggleRandom | src/mpd.rs:382-392 | reads the status, then sets the negated random flag; succeeds iff both commands do, and the flag ends negated exactly then; queue, current song, next id and the other flag are unchanged; one scripted outcome is used when the status read fails, two otherwise |
| PushLoop.SendSnapshot | src/main.rs:116-130 | sent exactly when query, render and socket write all succeed; the first failure is the result |
| PushLoop.Serve | src/main.rs:132-159 | the loop's run is the run the session function defines |
| PushLoop.HandleWsStatus | src/main.rs:132-159 | the status channel's run is the session of that channel |
| PushLoop.HandleWsPlaylist | src/main.rs:215-243 | the playlist channel's run is the session of that channel |
| PushLoop.SessionShape | src/main.rs:132-159 | a failed connect or first send ends the run at once; otherwise one initial frame plus one frame per player or queue change read, every delivered frame's send succeeded, a failed send ends the run at the change that caused it, no event is read past the first close, and the exit cause matches the last event: a close for `Closed`, a player or queue change for a failed send, and the end of a stream with no close for `StreamEnded` |
| PushLoop.AllSendsSucceed | src/main.rs:140-158 | when every send succeeds the run ends only by close or end of stream, reads exactly up to the first close, and delivers the initial frame followed by one frame per player or queue change before that close, in order |
| PushLoop.ChannelsAgree | src/main.rs:226-242 | both channels react to the same changes and give the same run; neither reacts to an `Options` change |

## Left out

- Rendering the HTML templates and the HTTP routes of `src/main.rs` are not modelled. A template
  render is one outcome bit of `PushLoop.Attempt`.
- `Mpd::connect`, `mpd_addr` and the environment variables it reads, TCP and async scheduling are not
  modelled. The outcome of connecting is a parameter.
- The daemon's wire protocol and the `mpd_client` library are not modelled. Each reply is an input
  value: a `Result` for the pure functions, a scripted outcome in the `Daemon` class.
- `Song::number()` is library code that is not part of this model. A song carries its `(disc, track)`
  pair directly.
- `Library.AlbumArt`: image decoding and `scale_down_if_needed` are a parameter `scale`, called with
  `MaxArtSize` (256). The bytes it returns are not modelled, and neither is its "wider than the
  maximum" test.
- Reading the placeholder file `assets/lp.png` is not modelled. Its bytes are a parameter, and the
  `unwrap` on a missing file is not modelled.
- `Library.Lower`: `to_lowercase` is modelled for ASCII letters only. Unicode case mapping is not
  modelled.
- `Projections.GetStatus`: `elapsed` and `duration` stay durations. Their conversion to `f64`
  seconds is not modelled.
- `Control.Daemon.AddUrls`: a command list succeeds or fails as one unit. A list applied partway
  before an error is not modelled.
- `Control.Daemon.AddUrls` gives ids as unbounded naturals. The `u64` limit on queue ids is not
  modelled.
- `Control.PlayAlbum`: the daemon is abstract. Its queue is a list of `(id, URI)` entries, and only
  the state these commands touch is modelled.
- `Control.PlayAlbum`: an empty command list is taken to make no round trip and to yield no ids, so
  an album without songs sends no `add` list, cannot fail at that step and logs no command for it.
  The `mpd_client` code that decides this is not part of this model.
- The single-command pass-through operations are not modelled, because each is one daemon call with
  no logic of its own: `stats`, `update_db`, `prev`, `next`, `pause`, `play`, `append_song_by_url` and
  `remove_from_playlist`.
- `play_song_by_url` and `append_album_to_playlist` are not modelled. Each is a short sequence of
  daemon commands outside the modelled core: a `ClearQueue`/`Add` command list then `play_song`, and
  `get_songs` then a command list of adds.
- `clear_playlist` and `play_song` appear only as the steps of `play_album`.
