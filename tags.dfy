/** Songs as the daemon client reports them, and `get_single_tag_value`:
    the first value of a tag, parsed with the target type's `FromStr`. */
module Tags {
  import opened Common

  datatype Tag = Artist | Album | Title | Date | Track | Disc | Other(name: string)

  /** The daemon client library's `(disc, track)` ordering key of a song. */
  datatype TrackNumber = TrackNumber(disc: u64, track: u64)

  /** A song from a daemon reply: its URI, every tag with all its values,
      and the library-computed track number. */
  datatype RawSong = RawSong(url: string, tags: map<Tag, seq<string>>, number: TrackNumber)

  /** The first value of `tag`, if the song has the tag with at least one value. */
  function FirstTagValue(song: RawSong, tag: Tag): (r: Option<string>)
    ensures r.Some? <==> tag in song.tags && song.tags[tag] != []
    ensures r.Some? ==> r.value == song.tags[tag][0]
  {
    if tag in song.tags && song.tags[tag] != [] then Some(song.tags[tag][0]) else None
  }

  /** `get_single_tag_value`: the first value of `tag`, parsed; absent when
      the tag is missing, has no value, or its first value does not parse. */
  function GetSingleTagValue<T>(song: RawSong, tag: Tag, parse: string -> Option<T>): (r: Option<T>)
    ensures FirstTagValue(song, tag).None? ==> r.None?
    ensures FirstTagValue(song, tag).Some? ==> r == parse(FirstTagValue(song, tag).value)
  {
    match FirstTagValue(song, tag)
    case None => None
    case Some(v) => parse(v)
  }

  /** `String::from_str`, which never fails. */
  function ParseString(s: string): Option<string> {
    Some(s)
  }

  predicate IsDigit(c: char) {
    '0' <= c <= '9'
  }

  predicate AllDigits(s: string) {
    forall i :: 0 <= i < |s| ==> IsDigit(s[i])
  }

  function DigitsValue(d: string): nat
    requires AllDigits(d)
  {
    if d == [] then 0 else DigitsValue(d[..|d| - 1]) * 10 + (d[|d| - 1] as int - '0' as int)
  }

  /** `i32::from_str`: an optional `+` or `-`, then one or more decimal
      digits, with the value inside the `i32` range. */
  function ParseI32(s: string): (r: Option<i32>)
  {
    if s == [] then None
    else
      var signed := s[0] == '+' || s[0] == '-';
      var digits := if signed then s[1..] else s;
      if digits == [] || !AllDigits(digits) then None
      else
        var v: int := if s[0] == '-' then -(DigitsValue(digits) as int) else DigitsValue(digits);
        if I32_MIN <= v <= I32_MAX then Some(v as i32) else None
  }

  /** Decimal digits of `n`, most significant first, without leading zeros. */
  function DecimalDigits(n: nat): (r: string)
    ensures r != [] && AllDigits(r)
  {
    if n < 10 then ['0' + n as char] else DecimalDigits(n / 10) + ['0' + (n % 10) as char]
  }

  /** `i32`'s `Display`: a `-` for negative values, then the digits. */
  function FormatI32(n: i32): string {
    if n < 0 then "-" + DecimalDigits(-(n as int)) else DecimalDigits(n as int)
  }

  lemma {:induction false} DecimalDigitsValue(n: nat)
    ensures DigitsValue(DecimalDigits(n)) == n
  {
    if n >= 10 {
      var d := DecimalDigits(n);
      assert d[..|d| - 1] == DecimalDigits(n / 10);
      DecimalDigitsValue(n / 10);
    }
  }

  /** Every `i32` survives formatting and parsing back. */
  lemma ParseFormatI32(n: i32)
    ensures ParseI32(FormatI32(n)) == Some(n)
  {
    var s := FormatI32(n);
    if n < 0 {
      DecimalDigitsValue(-(n as int));
      assert s[1..] == DecimalDigits(-(n as int));
    } else {
      DecimalDigitsValue(n as int);
      assert IsDigit(s[0]);
    }
  }

  /** A text with a `-` anywhere after its first character is not an
      integer: an ISO date such as `1999-05-12` parses to nothing. */
  lemma InnerDashIsNotI32(s: string, i: nat)
    requires 0 < i < |s| && s[i] == '-'
    ensures ParseI32(s) == None
  {
    var signed := s[0] == '+' || s[0] == '-';
    var digits := if signed then s[1..] else s;
    if signed {
      assert digits[i - 1] == '-';
    } else {
      assert digits[i] == '-';
    }
  }

  /** What parses as an `i32` is an optional sign followed only by digits. */
  lemma ParsedI32Shape(s: string)
    requires ParseI32(s).Some?
    ensures |s| >= 1
    ensures s[0] == '+' || s[0] == '-' || IsDigit(s[0])
    ensures forall i :: 1 <= i < |s| ==> IsDigit(s[i])
    ensures s[0] == '+' || s[0] == '-' ==> |s| >= 2
  {
    var signed := s[0] == '+' || s[0] == '-';
    var digits := if signed then s[1..] else s;
    if signed {
      forall i | 1 <= i < |s| ensures IsDigit(s[i]) {
        assert s[i] == digits[i - 1];
      }
    }
  }
}
