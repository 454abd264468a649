/** The status and playlist projections: `get_status` and `get_playlist`
    turn one batched daemon reply into the view models the push channels
    send. A `Snapshot` of the daemon's queue and player serves as the
    reference against which the derived flags are stated. */
module Projections {
  import opened Common
  import Tags

  datatype PlayState = Stopped | Playing | Paused

  datatype SingleMode = Enabled | Disabled | Oneshot

  /** A span of time as the daemon reports it; its conversion to
      floating-point seconds is not modelled. */
  datatype Duration = Duration(nanos: nat)

  /** An entry of the daemon's queue: its position, its queue id and the song. */
  datatype QueuedSong = QueuedSong(position: nat, id: u64, song: Tags.RawSong)

  /** The reply to the daemon's `status` command, the fields read here. */
  datatype StatusReply = StatusReply(
    state: PlayState,
    currentSong: Option<(nat, u64)>,  // (queue position, queue id)
    playlistLength: nat,
    single: SingleMode,
    repeat: bool,
    random: bool,
    updateJob: Option<u64>,
    elapsed: Option<Duration>,
    duration: Option<Duration>)

  /** The status view model. `updatingDb` is the source's `ubdating_db`. */
  datatype Status = Status(
    title: Option<string>,
    artist: Option<string>,
    album: Option<string>,
    playState: PlayState,
    hasNext: bool,
    hasPrev: bool,
    hasSong: bool,
    singleMode: SingleMode,
    repeat: bool,
    random: bool,
    updatingDb: bool,
    elapsed: Option<Duration>,
    duration: Option<Duration>)

  /** The playlist view model of one queue entry. */
  datatype SongInQueue = SongInQueue(id: u64, title: string, artist: string, playing: bool)

  // ---------------------------------------------------------------------------
  // get_status

  /** `get_status` on the batched replies to `status` and `currentsong`. */
  function GetStatus(status: StatusReply, current: Option<QueuedSong>): (r: Status)
    ensures r.playState == status.state
  {
    var hasSong := status.currentSong.Some?;
    var hasNext := status.state != Stopped
                   && status.currentSong.Some? && status.currentSong.value.0 + 1 < status.playlistLength;
    var hasPrev := status.state != Stopped && hasSong;
    var title := if current.Some? then Tags.FirstTagValue(current.value.song, Tags.Title) else None;
    var artist := if current.Some? then Tags.FirstTagValue(current.value.song, Tags.Artist) else None;
    var album := if current.Some? then Tags.FirstTagValue(current.value.song, Tags.Album) else None;
    Status(title, artist, album, status.state, hasNext, hasPrev, hasSong,
           status.single, status.repeat, status.random, status.updateJob.Some?,
           status.elapsed, status.duration)
  }

  /** The flags of the status, as the replies determine them. */
  lemma StatusFlags(status: StatusReply, current: Option<QueuedSong>)
    ensures var r := GetStatus(status, current);
            && (r.hasSong <==> status.currentSong.Some?)
            && (r.hasPrev <==> status.state != Stopped && r.hasSong)
            && (r.hasNext <==> status.state != Stopped && status.currentSong.Some?
                                && status.currentSong.value.0 + 1 < status.playlistLength)
            && (r.hasNext ==> r.hasSong)
            && (r.updatingDb <==> status.updateJob.Some?)
            && r.repeat == status.repeat && r.random == status.random && r.singleMode == status.single
            && r.elapsed == status.elapsed && r.duration == status.duration
  {
  }

  /** When stopped there is neither a next nor a previous song, whatever
      the queue holds. */
  lemma StoppedHasNoNeighbours(status: StatusReply, current: Option<QueuedSong>)
    requires status.state == Stopped
    ensures !GetStatus(status, current).hasNext && !GetStatus(status, current).hasPrev
  {
  }

  /** Without a current song, nothing identifies one. */
  lemma NoCurrentSongNoFields(status: StatusReply)
    ensures var r := GetStatus(status, None);
            r.title.None? && r.artist.None? && r.album.None?
  {
  }

  // ---------------------------------------------------------------------------
  // get_playlist

  /** `get_playlist` on the batched replies to `playlistinfo` and `currentsong`. */
  function GetPlaylist(queue: seq<QueuedSong>, current: Option<QueuedSong>): (r: seq<SongInQueue>)
    ensures |r| == |queue|
    ensures forall i :: 0 <= i < |queue| ==> r[i].id == queue[i].id
  {
    seq(|queue|, i requires 0 <= i < |queue| =>
      SongInQueue(queue[i].id,
                  Tags.FirstTagValue(queue[i].song, Tags.Title).GetOr(""),
                  Tags.FirstTagValue(queue[i].song, Tags.Artist).GetOr(""),
                  current.Some? && current.value.id == queue[i].id))
  }

  /** An entry is playing exactly when it has the current song's id. */
  lemma PlayingByIdEquality(queue: seq<QueuedSong>, current: Option<QueuedSong>, i: nat)
    requires i < |queue|
    ensures GetPlaylist(queue, current)[i].playing <==> current.Some? && current.value.id == queue[i].id
    ensures GetPlaylist(queue, current)[i].title
              == if Tags.Title in queue[i].song.tags && queue[i].song.tags[Tags.Title] != []
                 then queue[i].song.tags[Tags.Title][0] else ""
  {
  }

  function PlayingCount(entries: seq<SongInQueue>): (n: nat)
    ensures n <= |entries|
  {
    if entries == [] then 0
    else (if entries[0].playing then 1 else 0) + PlayingCount(entries[1..])
  }

  ghost predicate DistinctIds(queue: seq<QueuedSong>) {
    forall i, j :: 0 <= i < j < |queue| ==> queue[i].id != queue[j].id
  }

  lemma {:induction false} PlayingCountOfIds(queue: seq<QueuedSong>, current: Option<QueuedSong>)
    requires DistinctIds(queue)
    ensures current.None? ==> PlayingCount(GetPlaylist(queue, current)) == 0
    ensures current.Some? ==>
              PlayingCount(GetPlaylist(queue, current))
                == if exists i :: 0 <= i < |queue| && queue[i].id == current.value.id then 1 else 0
    decreases |queue|
  {
    if queue != [] {
      var r := GetPlaylist(queue, current);
      assert GetPlaylist(queue[1..], current) == r[1..];
      PlayingCountOfIds(queue[1..], current);
      if current.Some? {
        if queue[0].id == current.value.id {
          assert !exists i :: 0 <= i < |queue[1..]| && queue[1..][i].id == current.value.id by {
            forall i | 0 <= i < |queue[1..]| ensures queue[1..][i].id != current.value.id {
              assert queue[1..][i] == queue[i + 1];
            }
          }
        } else if exists i :: 0 <= i < |queue| && queue[i].id == current.value.id {
          var i :| 0 <= i < |queue| && queue[i].id == current.value.id;
          assert queue[1..][i - 1] == queue[i];
        }
      }
    }
  }

  /** With no current song no entry is playing; with distinct queue ids at
      most one is, and exactly one when the current song is in the queue.
      The play state plays no part: a stopped player with a current song
      still marks it. */
  lemma AtMostOnePlaying(queue: seq<QueuedSong>, current: Option<QueuedSong>)
    ensures current.None? ==> forall i :: 0 <= i < |queue| ==> !GetPlaylist(queue, current)[i].playing
    ensures DistinctIds(queue) ==> PlayingCount(GetPlaylist(queue, current)) <= 1
    ensures DistinctIds(queue) && current.Some? && current.value in queue ==>
              PlayingCount(GetPlaylist(queue, current)) == 1
  {
    if DistinctIds(queue) {
      PlayingCountOfIds(queue, current);
    }
  }

  // ---------------------------------------------------------------------------
  // The daemon as a snapshot: the replies it gives in one batch

  /** The daemon's queue and player at one instant. */
  datatype Snapshot = Snapshot(
    songs: seq<Tags.RawSong>,
    ids: seq<u64>,
    currentPos: Option<nat>,
    state: PlayState,
    single: SingleMode,
    repeat: bool,
    random: bool,
    updateJob: Option<u64>,
    elapsed: Option<Duration>,
    duration: Option<Duration>)

  /** One id per song, all distinct; the current position is in the queue. */
  ghost predicate Consistent(d: Snapshot) {
    && |d.ids| == |d.songs|
    && (forall i, j :: 0 <= i < j < |d.ids| ==> d.ids[i] != d.ids[j])
    && (d.currentPos.Some? ==> d.currentPos.value < |d.songs|)
  }

  function QueueOf(d: Snapshot): (q: seq<QueuedSong>)
    requires |d.ids| == |d.songs|
    ensures |q| == |d.songs|
  {
    seq(|d.songs|, i requires 0 <= i < |d.songs| => QueuedSong(i, d.ids[i], d.songs[i]))
  }

  function CurrentSongOf(d: Snapshot): Option<QueuedSong>
    requires Consistent(d)
  {
    match d.currentPos
    case None => None
    case Some(p) => Some(QueuedSong(p, d.ids[p], d.songs[p]))
  }

  function StatusReplyOf(d: Snapshot): StatusReply
    requires Consistent(d)
  {
    StatusReply(d.state,
                match d.currentPos case None => None case Some(p) => Some((p, d.ids[p])),
                |d.songs|, d.single, d.repeat, d.random, d.updateJob, d.elapsed, d.duration)
  }

  /** Against the daemon's own state: there is a next song exactly when the
      player is not stopped and a song follows the current one in the
      queue; there is a previous song exactly when the player is not
      stopped and has a current song; the title is the current song's. */
  lemma StatusMatchesSnapshot(d: Snapshot)
    requires Consistent(d)
    ensures var r := GetStatus(StatusReplyOf(d), CurrentSongOf(d));
            && (r.hasSong <==> d.currentPos.Some?)
            && (r.hasNext <==> d.state != Stopped && exists p :: d.currentPos == Some(p) && p + 1 < |d.songs|)
            && (r.hasPrev <==> d.state != Stopped && d.currentPos.Some?)
            && (d.currentPos.Some? ==> r.title == Tags.FirstTagValue(d.songs[d.currentPos.value], Tags.Title))
  {
  }

  /** An empty, stopped daemon shows no song and no neighbours. */
  lemma EmptyStoppedStatus(d: Snapshot)
    requires Consistent(d) && d.songs == [] && d.state == Stopped
    ensures var r := GetStatus(StatusReplyOf(d), CurrentSongOf(d));
            && r.title == None && r.artist == None && r.album == None
            && !r.hasNext && !r.hasPrev && !r.hasSong
  {
  }

  /** Against the daemon's own state: the playlist lists the queue in
      order, and exactly one entry plays when there is a current song,
      none otherwise. */
  lemma PlaylistMatchesSnapshot(d: Snapshot)
    requires Consistent(d)
    ensures var r := GetPlaylist(QueueOf(d), CurrentSongOf(d));
            && |r| == |d.songs|
            && (forall i :: 0 <= i < |r| ==> r[i].id == d.ids[i])
            && (forall i :: 0 <= i < |r| ==> (r[i].playing <==> d.currentPos == Some(i)))
            && PlayingCount(r) == if d.currentPos.Some? then 1 else 0
  {
    var q := QueueOf(d);
    assert DistinctIds(q);
    AtMostOnePlaying(q, CurrentSongOf(d));
    PlayingCountOfIds(q, CurrentSongOf(d));
    if d.currentPos.Some? {
      assert q[d.currentPos.value] == CurrentSongOf(d).value;
      assert CurrentSongOf(d).value in q;
    }
  }
}
