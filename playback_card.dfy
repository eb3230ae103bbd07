/**
 * The text fields of the "now playing" card that `current_playback` builds
 * from a normalised item and the raw playback state. Colour, footer and
 * timestamp are decoration and are not modelled. The time-span formatter
 * (`format_delta`) is not part of this model: it is passed in as a function.
 */
module PlaybackCard {
  import opened Wrappers
  import opened Spotify

  const TitleSeparator := " - "
  const ArtistSeparator := ", "
  const DurationSeparator := " / "

  /** The fields of the card: title, thumbnail, and the Duration, Shuffle and Repeat fields. */
  datatype Card = Card(title: string, thumbnail: string, duration: string, shuffle: string, repeat: string)

  /** `parts.join(sep)`: the parts in order with `sep` between neighbours; it starts with the first part. */
  function Join(parts: seq<string>, sep: string): (joined: string)
    ensures parts == [] ==> joined == ""
    ensures parts != [] ==> |parts[0]| <= |joined| && joined[..|parts[0]|] == parts[0]
  {
    if |parts| == 0 then ""
    else if |parts| == 1 then parts[0]
    else parts[0] + sep + Join(parts[1..], sep)
  }

  /** The joined text ends with the last part. */
  lemma {:induction false} JoinEndsWithLast(parts: seq<string>, sep: string)
    requires parts != []
    ensures |parts[|parts| - 1]| <= |Join(parts, sep)|
    ensures Join(parts, sep)[|Join(parts, sep)| - |parts[|parts| - 1]|..] == parts[|parts| - 1]
    decreases |parts|
  {
    if |parts| > 1 {
      var rest := parts[1..];
      JoinEndsWithLast(rest, sep);
      var last := parts[|parts| - 1];
      assert rest[|rest| - 1] == last;
      var front := parts[0] + sep;
      assert Join(parts, sep) == front + Join(rest, sep);
      assert Join(parts, sep)[|Join(parts, sep)| - |last|..] == Join(rest, sep)[|Join(rest, sep)| - |last|..];
    }
  }

  /** Joining splits at any inner boundary: the join of a list is the join of its two halves glued by `sep`. */
  lemma {:induction false} JoinSplit(parts: seq<string>, sep: string, i: nat)
    requires 0 < i < |parts|
    ensures Join(parts, sep) == Join(parts[..i], sep) + sep + Join(parts[i..], sep)
    decreases i
  {
    var head, tail := parts[..i], parts[i..];
    if i == 1 {
      assert head == [parts[0]];
      assert parts[1..] == tail;
    } else {
      var rest := parts[1..];
      JoinSplit(rest, sep, i - 1);
      assert head[1..] == rest[..i - 1];
      assert rest[i - 1..] == tail;
      assert Join(head, sep) == parts[0] + sep + Join(rest[..i - 1], sep);
      assert Join(parts, sep) == parts[0] + sep + Join(rest, sep);
    }
  }

  /** Every part appears in the joined text, at offset `k`. */
  lemma JoinShowsPart(parts: seq<string>, sep: string, i: nat) returns (k: nat)
    requires i < |parts|
    ensures k + |parts[i]| <= |Join(parts, sep)|
    ensures Join(parts, sep)[k..k + |parts[i]|] == parts[i]
  {
    var tail := Join(parts[i..], sep);
    assert tail[..|parts[i]|] == parts[i] by {
      if |parts[i..]| > 1 {
        assert tail == parts[i] + (sep + Join(parts[i..][1..], sep));
      }
    }
    if i == 0 {
      assert parts[0..] == parts;
      k := 0;
    } else {
      JoinSplit(parts, sep, i);
      var head := Join(parts[..i], sep) + sep;
      assert Join(parts, sep) == head + tail;
      k := |head|;
      assert Join(parts, sep)[k..k + |parts[i]|] == tail[..|parts[i]|];
    }
  }

  /** The card title: the item's name, then its artists separated by commas. */
  function Title(name: string, artists: seq<string>): (title: string)
    ensures |name| + |TitleSeparator| <= |title|
    ensures title[..|name| + |TitleSeparator|] == name + TitleSeparator
  {
    name + TitleSeparator + Join(artists, ArtistSeparator)
  }

  /** Each artist of the item appears in the title, after the name. */
  lemma TitleShowsArtist(name: string, artists: seq<string>, i: nat) returns (k: nat)
    requires i < |artists|
    ensures |name| + |TitleSeparator| <= k
    ensures k + |artists[i]| <= |Title(name, artists)|
    ensures Title(name, artists)[k..k + |artists[i]|] == artists[i]
  {
    var j := JoinShowsPart(artists, ArtistSeparator, i);
    var prefix := name + TitleSeparator;
    assert Title(name, artists) == prefix + Join(artists, ArtistSeparator);
    k := |prefix| + j;
    assert Title(name, artists)[k..k + |artists[i]|] == Join(artists, ArtistSeparator)[j..j + |artists[i]|];
  }

  /** The title of a song called "Song" by "A" and "B". */
  lemma TitleOfTwoArtists()
    ensures Title("Song", ["A", "B"]) == "Song - A, B"
  {
    assert ["A", "B"][1..] == ["B"];
  }

  /** The Shuffle field: "On" exactly when shuffling, "Off" exactly when not. */
  function ShuffleField(shuffle: bool): (field: string)
    ensures field == "On" <==> shuffle
    ensures field == "Off" <==> !shuffle
  {
    if shuffle then "On" else "Off"
  }

  /** Reads a Repeat field back into the repeat mode it shows, if it shows one. */
  function ParseRepeat(field: string): (repeat: Option<RepeatState>)
    ensures repeat.Some? <==> field == "Off" || field == "Track" || field == "Context"
  {
    if field == "Off" then Some(Off)
    else if field == "Track" then Some(Track)
    else if field == "Context" then Some(Context)
    else None
  }

  /** The Repeat field: the name of the repeat mode, which reads back as that mode. */
  function RepeatField(repeat: RepeatState): (field: string)
    ensures ParseRepeat(field) == Some(repeat)
  {
    match repeat
    case Off => "Off"
    case Track => "Track"
    case Context => "Context"
  }

  /** No two repeat modes share a Repeat field. */
  lemma RepeatFieldInjective(a: RepeatState, b: RepeatState)
    requires RepeatField(a) == RepeatField(b)
    ensures a == b
  {
    assert Some(a) == ParseRepeat(RepeatField(a)) == ParseRepeat(RepeatField(b)) == Some(b);
  }

  /** The Duration field: the elapsed text, then " / ", then the total text, as the formatter writes them. */
  function DurationField(progress: Delta, total: Delta, formatDelta: Delta -> string): (field: string)
    ensures |field| == |formatDelta(progress)| + |DurationSeparator| + |formatDelta(total)|
    ensures field[..|formatDelta(progress)|] == formatDelta(progress)
    ensures field[|formatDelta(progress)|..|formatDelta(progress)| + |DurationSeparator|] == DurationSeparator
    ensures field[|formatDelta(progress)| + |DurationSeparator|..] == formatDelta(total)
  {
    formatDelta(progress) + DurationSeparator + formatDelta(total)
  }

  /** The position of the first `c` in `s`, if any. */
  function IndexOf(s: string, c: char): (k: Option<nat>)
    ensures k.Some? ==> k.value < |s| && s[k.value] == c && c !in s[..k.value]
    ensures k.None? ==> c !in s
  {
    if |s| == 0 then None
    else if s[0] == c then Some(0)
    else match IndexOf(s[1..], c)
      case None => None
      case Some(j) =>
        assert s[..j + 1] == [s[0]] + s[1..][..j];
        Some(j + 1)
  }

  /** Splits a Duration field at its first " / " back into elapsed and total text. */
  function SplitDuration(field: string): (parts: Option<(string, string)>)
    ensures parts.Some? ==> field == parts.value.0 + DurationSeparator + parts.value.1
  {
    match IndexOf(field, '/')
    case None => None
    case Some(k) =>
      if 1 <= k && k + 2 <= |field| && field[k - 1..k + 2] == DurationSeparator then
        assert field == field[..k - 1] + field[k - 1..k + 2] + field[k + 2..];
        Some((field[..k - 1], field[k + 2..]))
      else None
  }

  /**
   * When the elapsed time is written without a '/', the Duration field reads
   * back as exactly the elapsed and the total text.
   */
  lemma DurationRoundTrip(progress: Delta, total: Delta, formatDelta: Delta -> string)
    ensures '/' !in formatDelta(progress) ==>
      SplitDuration(DurationField(progress, total, formatDelta)) == Some((formatDelta(progress), formatDelta(total)))
  {
    var a, b := formatDelta(progress), formatDelta(total);
    if '/' !in a {
      var field := DurationField(progress, total, formatDelta);
      var n := |a| + 1;
      assert field[n] == '/';
      assert field[..n] == a + " ";
      var k := IndexOf(field, '/');
      assert k.Some?;
      assert field[n - 1..n + 2] == DurationSeparator;
      assert field[..n - 1] == a;
      assert field[n + 2..] == b;
    }
  }

  /** Two Duration fields are equal only when elapsed and total text are, given a '/'-free elapsed text. */
  lemma DurationFieldInjective(p1: Delta, t1: Delta, p2: Delta, t2: Delta, formatDelta: Delta -> string)
    requires '/' !in formatDelta(p1) && '/' !in formatDelta(p2)
    requires DurationField(p1, t1, formatDelta) == DurationField(p2, t2, formatDelta)
    ensures formatDelta(p1) == formatDelta(p2) && formatDelta(t1) == formatDelta(t2)
  {
    DurationRoundTrip(p1, t1, formatDelta);
    DurationRoundTrip(p2, t2, formatDelta);
  }

  /**
   * The card for `item` and the playback state. A missing progress makes the
   * source panic (`unwrap`), so callers must supply one.
   */
  function Render(item: StandardItem, playback: PlaybackState, formatDelta: Delta -> string): (card: Card)
    requires playback.progress.Some?
    ensures card.title == Title(item.name, item.artists)
    ensures card.thumbnail == item.image
    ensures card.shuffle == ShuffleField(playback.shuffleState)
    ensures card.shuffle == "On" <==> playback.shuffleState
    ensures card.shuffle == "Off" <==> !playback.shuffleState
    ensures card.repeat == RepeatField(playback.repeatState)
    ensures ParseRepeat(card.repeat) == Some(playback.repeatState)
    ensures card.duration == DurationField(playback.progress.value, item.duration, formatDelta)
    ensures '/' !in formatDelta(playback.progress.value) ==>
      SplitDuration(card.duration) == Some((formatDelta(playback.progress.value), formatDelta(item.duration)))
  {
    var progress := playback.progress.value;
    DurationRoundTrip(progress, item.duration, formatDelta);
    Card(
      Title(item.name, item.artists),
      item.image,
      DurationField(progress, item.duration, formatDelta),
      ShuffleField(playback.shuffleState),
      RepeatField(playback.repeatState))
  }
}
