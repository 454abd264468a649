/** The command sequences `play_album`, `toggle_repeat` and `toggle_random`
    issue against the daemon. The daemon is an object holding the queue,
    the current song, the repeat and random flags, the log of the commands
    it received, and a script of the outcomes of the commands still to
    come (an exhausted script means every further command succeeds). */
module Control {
  import opened Common
  import Tags
  import Library

  datatype Command =
    | ClearQueue
    | Find(artist: string, album: string)
    | AddAll(urls: seq<string>)
    | PlayId(id: nat)
    | StatusQuery
    | SetRepeat(on: bool)
    | SetRandom(on: bool)

  /** A queue entry: the id the daemon gave it and the song's URI. */
  datatype Entry = Entry(id: nat, url: string)

  /** Whether the command `k` places ahead succeeds under `script`. */
  function OkAt(script: seq<bool>, k: nat): bool {
    k >= |script| || script[k]
  }

  function Drop(script: seq<bool>, k: nat): seq<bool> {
    if k >= |script| then [] else script[k..]
  }

  function Urls(songs: seq<Library.Song>): (r: seq<string>)
    ensures |r| == |songs|
    ensures forall i :: 0 <= i < |songs| ==> r[i] == songs[i].url
  {
    seq(|songs|, i requires 0 <= i < |songs| => songs[i].url)
  }

  function EntriesFrom(first: nat, urls: seq<string>): (r: seq<Entry>)
    ensures |r| == |urls|
    ensures forall i :: 0 <= i < |urls| ==> r[i] == Entry(first + i, urls[i])
  {
    seq(|urls|, i requires 0 <= i < |urls| => Entry(first + i, urls[i]))
  }

  class Daemon {
    var queue: seq<Entry>
    var nextId: nat
    var current: Option<nat>
    var repeat: bool
    var random: bool
    var log: seq<Command>
    var script: seq<bool>
    /** The songs the daemon's `find` returns for an artist and an album. */
    const library: (string, string) -> seq<Tags.RawSong>

    /** Queue ids are distinct (a shuffle or move may reorder them) and
        stay below `nextId`; the current song is in the queue. */
    ghost predicate Valid()
      reads this
    {
      && (forall i, j :: 0 <= i < j < |queue| ==> queue[i].id != queue[j].id)
      && (forall i :: 0 <= i < |queue| ==> queue[i].id < nextId)
      && (current.Some? ==> exists i :: 0 <= i < |queue| && queue[i].id == current.value)
    }

    constructor (library: (string, string) -> seq<Tags.RawSong>, script: seq<bool>)
      ensures Valid()
      ensures this.library == library && this.script == script
      ensures queue == [] && current == None && log == [] && !repeat && !random
    {
      this.library := library;
      this.script := script;
      queue, nextId, current := [], 0, None;
      repeat, random, log := false, false, [];
    }

    /** Sends `c`; its outcome is the head of the script. */
    method Issue(c: Command) returns (ok: bool)
      modifies this`log, this`script
      ensures log == old(log) + [c]
      ensures ok == OkAt(old(script), 0) && script == Drop(old(script), 1)
    {
      log := log + [c];
      ok := script == [] || script[0];
      script := if script == [] then [] else script[1..];
    }

    method Clear() returns (ok: bool)
      requires Valid()
      modifies this
      ensures Valid()
      ensures log == old(log) + [ClearQueue]
      ensures ok == OkAt(old(script), 0) && script == Drop(old(script), 1)
      ensures queue == (if ok then [] else old(queue))
      ensures current == (if ok then None else old(current))
      ensures nextId == old(nextId) && repeat == old(repeat) && random == old(random)
    {
      ok := Issue(ClearQueue);
      if ok {
        queue, current := [], None;
      }
    }

    method FindSongs(artist: string, album: string) returns (r: Result<seq<Tags.RawSong>>)
      modifies this`log, this`script
      ensures log == old(log) + [Find(artist, album)]
      ensures script == Drop(old(script), 1)
      ensures r == if OkAt(old(script), 0) then Ok(library(artist, album)) else Err("find failed")
    {
      var ok := Issue(Find(artist, album));
      r := if ok then Ok(library(artist, album)) else Err("find failed");
    }

    /** One command list of `add` commands; the daemon numbers the new
        entries from `nextId`. An empty list is not sent: it makes no
        round trip and yields no ids. */
    method AddUrls(urls: seq<string>) returns (r: Result<seq<nat>>)
      requires Valid()
      modifies this
      ensures Valid()
      ensures urls == [] ==> r == Ok([]) && log == old(log) && script == old(script)
      ensures urls != [] ==> && log == old(log) + [AddAll(urls)]
                             && script == Drop(old(script), 1)
                             && r.Ok? == OkAt(old(script), 0)
      ensures r.Ok? ==> && |r.value| == |urls|
                        && (forall i :: 0 <= i < |urls| ==> r.value[i] == old(nextId) + i)
                        && queue == old(queue) + EntriesFrom(old(nextId), urls)
                        && nextId == old(nextId) + |urls|
      ensures r.Err? ==> queue == old(queue) && nextId == old(nextId)
      ensures current == old(current) && repeat == old(repeat) && random == old(random)
    {
      if urls == [] {
        assert queue + EntriesFrom(nextId, urls) == queue;
        return Ok([]);
      }
      var ok := Issue(AddAll(urls));
      if !ok {
        return Err("add failed");
      }
      var first := nextId;
      ghost var before := queue;
      r := Ok(seq(|urls|, i requires 0 <= i < |urls| => first + i));
      queue := queue + EntriesFrom(first, urls);
      nextId := first + |urls|;
      if current.Some? {
        ghost var i :| 0 <= i < |before| && before[i].id == current.value;
        assert queue[i] == before[i];
      }
    }

    /** Plays the entry with queue id `id`; the daemon refuses an id that
        is not in the queue. */
    method PlaySong(id: nat) returns (ok: bool)
      requires Valid()
      modifies this
      ensures Valid()
      ensures log == old(log) + [PlayId(id)]
      ensures script == Drop(old(script), 1)
      ensures ok == (OkAt(old(script), 0) && exists i :: 0 <= i < |queue| && queue[i].id == id)
      ensures current == if ok then Some(id) else old(current)
      ensures queue == old(queue) && nextId == old(nextId) && repeat == old(repeat) && random == old(random)
    {
      ok := Issue(PlayId(id));
      ok := ok && exists i :: 0 <= i < |queue| && queue[i].id == id;
      if ok {
        current := Some(id);
      }
    }

    /** The `status` command; only the two flags the toggles read. */
    method ReadFlags() returns (r: Result<(bool, bool)>)
      modifies this`log, this`script
      ensures log == old(log) + [StatusQuery]
      ensures script == Drop(old(script), 1)
      ensures r == if OkAt(old(script), 0) then Ok((repeat, random)) else Err("status failed")
    {
      var ok := Issue(StatusQuery);
      r := if ok then Ok((repeat, random)) else Err("status failed");
    }

    method SetRepeatFlag(on: bool) returns (ok: bool)
      modifies this`log, this`script, this`repeat
      ensures log == old(log) + [SetRepeat(on)]
      ensures ok == OkAt(old(script), 0) && script == Drop(old(script), 1)
      ensures repeat == if ok then on else old(repeat)
    {
      ok := Issue(SetRepeat(on));
      if ok {
        repeat := on;
      }
    }

    method SetRandomFlag(on: bool) returns (ok: bool)
      modifies this`log, this`script, this`random
      ensures log == old(log) + [SetRandom(on)]
      ensures ok == OkAt(old(script), 0) && script == Drop(old(script), 1)
      ensures random == if ok then on else old(random)
    {
      ok := Issue(SetRandom(on));
      if ok {
        random := on;
      }
    }
  }

  lemma DropDrop(script: seq<bool>, j: nat, k: nat)
    ensures Drop(Drop(script, j), k) == Drop(script, j + k)
    ensures OkAt(Drop(script, j), k) == OkAt(script, j + k)
  {
  }

  /** The add list of `play_album`, sent to a cleared queue: on success the
      queue holds exactly the new entries. */
  method AddToEmpty(d: Daemon, urls: seq<string>) returns (ids: Result<seq<nat>>)
    requires d.Valid() && d.queue == [] && d.current == None
    modifies d
    ensures d.Valid()
    ensures d.current == None && d.repeat == old(d.repeat) && d.random == old(d.random)
    ensures d.log == old(d.log) + (if urls == [] then [] else [AddAll(urls)])
    ensures d.script == Drop(old(d.script), if urls == [] then 0 else 1)
    ensures ids.Ok? == (urls == [] || OkAt(old(d.script), 0))
    ensures ids.Ok? ==> && d.queue == EntriesFrom(old(d.nextId), urls)
                        && d.nextId == old(d.nextId) + |urls|
                        && |ids.value| == |urls|
                        && (urls != [] ==> ids.value[0] == old(d.nextId))
    ensures ids.Err? ==> d.queue == [] && d.nextId == old(d.nextId)
  {
    ids := d.AddUrls(urls);
    if ids.Ok? {
      assert [] + EntriesFrom(old(d.nextId), urls) == EntriesFrom(old(d.nextId), urls);
    }
  }

  /** The tail of `play_album` on a cleared queue: append `urls` as one
      command list, then play the first added entry when there is one. */
  method AddAndPlay(d: Daemon, urls: seq<string>) returns (r: Outcome)
    requires d.Valid() && d.queue == [] && d.current == None
    modifies d
    ensures d.Valid()
    ensures d.repeat == old(d.repeat) && d.random == old(d.random)
    ensures var s := old(d.script);
            && d.script == Drop(s, if urls == [] then 0 else if !OkAt(s, 0) then 1 else 2)
            && d.nextId == old(d.nextId) + (if urls != [] && OkAt(s, 0) then |urls| else 0)
    ensures urls == [] ==> r == Pass && d.log == old(d.log) && d.queue == [] && d.current == None
    ensures urls != [] ==>
              var s := old(d.script);
              && (!OkAt(s, 0) ==>
                    r.Fail? && d.log == old(d.log) + [AddAll(urls)] && d.queue == [] && d.current == None)
              && (OkAt(s, 0) ==>
                    && d.queue == EntriesFrom(old(d.nextId), urls)
                    && d.log == old(d.log) + [AddAll(urls), PlayId(old(d.nextId))]
                    && (r == Pass <==> OkAt(s, 1))
                    && d.current == if OkAt(s, 1) then Some(old(d.nextId)) else None)
  {
    ghost var s := d.script;
    var ids := AddToEmpty(d, urls);
    if ids.Err? {
      return Fail(ids.error);
    }
    if |ids.value| > 0 {
      DropDrop(s, 1, 0);
      DropDrop(s, 1, 1);
      r := PlayFirst(d, ids.value[0]);
    } else {
      r := Pass;
    }
  }

  /** Plays the first entry of the queue, whose id is `id`. */
  method PlayFirst(d: Daemon, id: nat) returns (r: Outcome)
    requires d.Valid() && |d.queue| > 0 && d.queue[0].id == id
    modifies d
    ensures d.Valid()
    ensures d.log == old(d.log) + [PlayId(id)]
    ensures r == Pass <==> OkAt(old(d.script), 0)
    ensures d.current == if r == Pass then Some(id) else old(d.current)
    ensures d.queue == old(d.queue) && d.repeat == old(d.repeat) && d.random == old(d.random)
    ensures d.nextId == old(d.nextId) && d.script == Drop(old(d.script), 1)
  {
    var ok := d.PlaySong(id);
    if !ok {
      return Fail("play failed");
    }
    r := Pass;
  }

  /** The head of `play_album`: clear the queue, then fetch the album's
      songs in track order; the find is sent only after a successful clear. */
  method ClearAndFind(d: Daemon, artist: string, album: string) returns (songs: Result<seq<Library.Song>>)
    requires d.Valid()
    modifies d
    ensures d.Valid()
    ensures d.repeat == old(d.repeat) && d.random == old(d.random) && d.nextId == old(d.nextId)
    ensures var s := old(d.script);
            && (!OkAt(s, 0) ==>
                  && songs.Err? && d.log == old(d.log) + [ClearQueue] && d.script == Drop(s, 1)
                  && d.queue == old(d.queue) && d.current == old(d.current))
            && (OkAt(s, 0) ==>
                  && d.log == old(d.log) + [ClearQueue, Find(artist, album)]
                  && d.script == Drop(s, 2)
                  && d.queue == [] && d.current == None
                  && songs.Ok? == OkAt(s, 1)
                  && (songs.Ok? ==> songs == Library.SongsOf(Ok(d.library(artist, album)))))
  {
    ghost var s := d.script;
    var ok := d.Clear();
    if !ok {
      return Err("clear failed");
    }
    var reply := d.FindSongs(artist, album);
    DropDrop(s, 1, 0);
    DropDrop(s, 1, 1);
    songs := Library.GetSongs(reply);
  }

  /** `play_album`: clear the queue, fetch the album's songs, append them
      in track order as one command list, and play the first added entry
      when there is one. Each step runs only if the one before succeeded;
      an album without songs sends no list and no play command. */
  method PlayAlbum(d: Daemon, artist: string, album: string) returns (r: Outcome)
    requires d.Valid()
    modifies d
    ensures d.Valid()
    ensures d.repeat == old(d.repeat) && d.random == old(d.random)
    ensures var s := old(d.script);
            var urls := Urls(Library.SongsOf(Ok(d.library(artist, album))).value);
            && d.script == Drop(s, if !OkAt(s, 0) then 1
                                   else if !OkAt(s, 1) || urls == [] then 2
                                   else if !OkAt(s, 2) then 3
                                   else 4)
            && d.nextId == old(d.nextId) + (if OkAt(s, 0) && OkAt(s, 1) && OkAt(s, 2) && urls != [] then |urls| else 0)
            && (!OkAt(s, 0) ==>
                  && r.Fail? && d.log == old(d.log) + [ClearQueue]
                  && d.queue == old(d.queue) && d.current == old(d.current))
            && (OkAt(s, 0) && !OkAt(s, 1) ==>
                  && r.Fail? && d.log == old(d.log) + [ClearQueue, Find(artist, album)]
                  && d.queue == [] && d.current == None)
            && (OkAt(s, 0) && OkAt(s, 1) && urls == [] ==>
                  && r == Pass && d.log == old(d.log) + [ClearQueue, Find(artist, album)]
                  && d.queue == [] && d.current == None)
            && (OkAt(s, 0) && OkAt(s, 1) && urls != [] && !OkAt(s, 2) ==>
                  && r.Fail? && d.log == old(d.log) + [ClearQueue, Find(artist, album), AddAll(urls)]
                  && d.queue == [] && d.current == None)
            && (OkAt(s, 0) && OkAt(s, 1) && urls != [] && OkAt(s, 2) ==>
                  && d.queue == EntriesFrom(old(d.nextId), urls)
                  && d.log == old(d.log) + [ClearQueue, Find(artist, album), AddAll(urls), PlayId(old(d.nextId))]
                  && (r == Pass <==> OkAt(s, 3))
                  && d.current == if OkAt(s, 3) then Some(old(d.nextId)) else None)
  {
    ghost var s := d.script;
    var songs := ClearAndFind(d, artist, album);
    if songs.Err? {
      return Fail(songs.error);
    }
    DropDrop(s, 2, 0);
    DropDrop(s, 2, 1);
    DropDrop(s, 2, 2);
    var urls := Urls(songs.value);
    r := AddAndPlay(d, urls);
  }

  /** `toggle_repeat`: read the flag, then set its negation. */
  method ToggleRepeat(d: Daemon) returns (r: Outcome)
    requires d.Valid()
    modifies d
    ensures d.Valid()
    ensures var s := old(d.script);
            && d.log == old(d.log) + [StatusQuery] + (if OkAt(s, 0) then [SetRepeat(!old(d.repeat))] else [])
            && (r == Pass <==> OkAt(s, 0) && OkAt(s, 1))
            && d.repeat == (if r == Pass then !old(d.repeat) else old(d.repeat))
            && d.script == Drop(s, if OkAt(s, 0) then 2 else 1)
    ensures d.queue == old(d.queue) && d.nextId == old(d.nextId)
    ensures d.current == old(d.current) && d.random == old(d.random)
  {
    ghost var s := d.script;
    var status := d.ReadFlags();
    if status.Err? {
      return Fail(status.error);
    }
    var repeat := status.value.0;
    var ok := d.SetRepeatFlag(!repeat);
    DropDrop(s, 1, 0);
    DropDrop(s, 1, 1);
    if !ok {
      return Fail("setting repeat failed");
    }
    r := Pass;
  }

  /** `toggle_random`: read the flag, then set its negation. */
  method ToggleRandom(d: Daemon) returns (r: Outcome)
    requires d.Valid()
    modifies d
    ensures d.Valid()
    ensures var s := old(d.script);
            && d.log == old(d.log) + [StatusQuery] + (if OkAt(s, 0) then [SetRandom(!old(d.random))] else [])
            && (r == Pass <==> OkAt(s, 0) && OkAt(s, 1))
            && d.random == (if r == Pass then !old(d.random) else old(d.random))
            && d.script == Drop(s, if OkAt(s, 0) then 2 else 1)
    ensures d.queue == old(d.queue) && d.nextId == old(d.nextId)
    ensures d.current == old(d.current) && d.repeat == old(d.repeat)
  {
    ghost var s := d.script;
    var status := d.ReadFlags();
    if status.Err? {
      return Fail(status.error);
    }
    var random := status.value.1;
    var ok := d.SetRandomFlag(!random);
    DropDrop(s, 1, 0);
    DropDrop(s, 1, 1);
    if !ok {
      return Fail("setting random failed");
    }
    r := Pass;
  }
}
