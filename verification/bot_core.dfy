/** The decision logic of the Telegram audio handler `process_audio`: which
    messages it handles, how a fingerprint-recognition response becomes a
    title/artist/album record, how that record is written into the file's ID3
    tag container, and the name the tagged file is delivered under. The
    transport, the recognition service, the tag library and the filesystem
    are left outside; their inputs and outputs are plain values here. */
module BotCore {
  import opened Wrappers
  import opened Strings

  // ---------------------------------------------------------------------
  // Admission of an incoming message
  // ---------------------------------------------------------------------

  /** A document attachment; its file name is optional in the transport. */
  datatype Document = Document(fileName: Option<string>)

  /** The parts of an incoming message the handler looks at. */
  datatype Message = Message(hasAudio: bool, document: Option<Document>)

  /** What the guard at the top of the handler does with a message:
      carry on, return silently, or raise (calling `.endswith` on a missing
      file name raises before anything else happens). */
  datatype Admission = Handle | Ignore | Fault

  /** A message is handled exactly when it carries audio, or a document whose
      file name ends in ".mp3"; a document without a file name (and no audio)
      makes the guard itself fail, and everything else is ignored. */
  function Admit(m: Message): (a: Admission)
    ensures a == Handle <==>
      m.hasAudio
      || (m.document.Some? && m.document.value.fileName.Some?
          && EndsWith(m.document.value.fileName.value, ".mp3"))
    ensures a == Fault <==>
      !m.hasAudio && m.document.Some? && m.document.value.fileName.None?
  {
    if m.hasAudio then Handle
    else match m.document
      case None => Ignore
      case Some(d) =>
        match d.fileName
        case None => Fault
        case Some(name) => if EndsWith(name, ".mp3") then Handle else Ignore
  }

  // ---------------------------------------------------------------------
  // Recognition response
  // ---------------------------------------------------------------------

  /** One entry of a section's `metadata` list: optional `title` and `text`. */
  datatype MetaEntry = MetaEntry(title: Option<string>, text: Option<string>)

  /** One entry of the track's `sections` list; a missing `metadata` key is
      the empty list. */
  datatype Section = Section(kind: Option<string>, metadata: seq<MetaEntry>)

  /** The `track` record; a missing `sections` key is the empty list. */
  datatype Track = Track(title: Option<string>, subtitle: Option<string>, sections: seq<Section>)

  /** A recognition response. An absent or empty response and one without a
      `track` key are all `Recognition(None)`. */
  datatype Recognition = Recognition(track: Option<Track>)

  /** The extracted record. `album` is `None` when the winning "Album" entry
      carries no `text` (Python's `None`), and `Some("")` when no entry
      matched at all. */
  datatype TrackInfo = TrackInfo(title: string, artist: string, album: Option<string>)

  datatype Identification = NotFound | Found(info: TrackInfo)

  const Unknown := "Unknown"
  const NoAlbum: Option<string> := Some("")

  /** The album loop as the handler runs it: walk the sections in order, and
      inside every "SONG" section walk its metadata, overwriting `album` at
      each entry titled "Album" (there is no early exit). */
  function ScanSections(album: Option<string>, sections: seq<Section>): Option<string>
    decreases |sections|
  {
    if |sections| == 0 then album
    else
      var next := if sections[0].kind == Some("SONG") then ScanEntries(album, sections[0].metadata) else album;
      ScanSections(next, sections[1..])
  }

  function ScanEntries(album: Option<string>, entries: seq<MetaEntry>): Option<string>
    decreases |entries|
  {
    if |entries| == 0 then album
    else
      var next := if entries[0].title == Some("Album") then entries[0].text else album;
      ScanEntries(next, entries[1..])
  }

  // Reference definition: the list of candidate entries, then its last one.

  /** The entries of `entries` titled "Album", in order. */
  function AlbumEntriesOf(entries: seq<MetaEntry>): (r: seq<MetaEntry>)
    ensures forall e :: e in r <==> e in entries && e.title == Some("Album")
  {
    if |entries| == 0 then []
    else (if entries[0].title == Some("Album") then [entries[0]] else []) + AlbumEntriesOf(entries[1..])
  }

  /** `e` is an entry titled "Album" in the metadata of section `j`, and that
      section's type is "SONG". */
  predicate IsAlbumEntry(sections: seq<Section>, j: int, e: MetaEntry) {
    0 <= j < |sections| && sections[j].kind == Some("SONG") && e in sections[j].metadata && e.title == Some("Album")
  }

  /** Every "Album" entry of every "SONG" section, in document order. */
  function AlbumEntries(sections: seq<Section>): (r: seq<MetaEntry>)
    ensures forall e :: e in r ==> e.title == Some("Album")
    ensures forall e :: e in r <==> exists j :: IsAlbumEntry(sections, j, e)
  {
    if |sections| == 0 then []
    else
      var here := if sections[0].kind == Some("SONG") then AlbumEntriesOf(sections[0].metadata) else [];
      var rest := AlbumEntries(sections[1..]);
      assert forall e :: e in rest <==> exists j :: 1 <= j && IsAlbumEntry(sections, j, e) by {
        forall e | e in rest ensures exists j :: 1 <= j && IsAlbumEntry(sections, j, e) {
          var j :| IsAlbumEntry(sections[1..], j, e);
          assert IsAlbumEntry(sections, j + 1, e);
        }
        forall e | exists j :: 1 <= j && IsAlbumEntry(sections, j, e) ensures e in rest {
          var j :| 1 <= j && IsAlbumEntry(sections, j, e);
          assert IsAlbumEntry(sections[1..], j - 1, e);
        }
      }
      assert forall e :: e in here <==> IsAlbumEntry(sections, 0, e);
      here + rest
  }

  /** The text of the last entry of `es`, or `dflt` when there is none. */
  function LastText(dflt: Option<string>, es: seq<MetaEntry>): Option<string> {
    if |es| == 0 then dflt else es[|es| - 1].text
  }

  /** The album the handler ends up with: the text of the last "Album" entry
      among "SONG" sections, or the empty string when there is none. */
  function ExpectedAlbum(sections: seq<Section>): Option<string> {
    LastText(NoAlbum, AlbumEntries(sections))
  }

  lemma LastTextAppend(d: Option<string>, a: seq<MetaEntry>, b: seq<MetaEntry>)
    ensures LastText(LastText(d, a), b) == LastText(d, a + b)
  {
  }

  lemma {:induction false} ScanEntriesIsLast(album: Option<string>, entries: seq<MetaEntry>)
    ensures ScanEntries(album, entries) == LastText(album, AlbumEntriesOf(entries))
    decreases |entries|
  {
    if |entries| > 0 {
      var head := if entries[0].title == Some("Album") then [entries[0]] else [];
      var next := if entries[0].title == Some("Album") then entries[0].text else album;
      ScanEntriesIsLast(next, entries[1..]);
      assert next == LastText(album, head);
      LastTextAppend(album, head, AlbumEntriesOf(entries[1..]));
    }
  }

  lemma {:induction false} ScanSectionsIsLast(album: Option<string>, sections: seq<Section>)
    ensures ScanSections(album, sections) == LastText(album, AlbumEntries(sections))
    decreases |sections|
  {
    if |sections| > 0 {
      var here := if sections[0].kind == Some("SONG") then AlbumEntriesOf(sections[0].metadata) else [];
      var next := if sections[0].kind == Some("SONG") then ScanEntries(album, sections[0].metadata) else album;
      if sections[0].kind == Some("SONG") {
        ScanEntriesIsLast(album, sections[0].metadata);
      }
      assert next == LastText(album, here);
      ScanSectionsIsLast(next, sections[1..]);
      LastTextAppend(album, here, AlbumEntries(sections[1..]));
    }
  }

  /** The album loop leaves `album` at the last "Album" entry of a "SONG"
      section: a later duplicate overrides an earlier one. */
  lemma AlbumScanIsLastMatch(sections: seq<Section>)
    ensures ScanSections(NoAlbum, sections) == ExpectedAlbum(sections)
  {
    ScanSectionsIsLast(NoAlbum, sections);
  }

  /** The album is the empty string when no "SONG" section has an "Album"
      entry; otherwise it is the text of such an entry. */
  lemma AlbumFromSongSection(sections: seq<Section>)
    ensures (forall j, e :: !IsAlbumEntry(sections, j, e)) ==> ScanSections(NoAlbum, sections) == Some("")
    ensures (exists j, e :: IsAlbumEntry(sections, j, e))
            ==> exists j, e :: IsAlbumEntry(sections, j, e) && e.text == ScanSections(NoAlbum, sections)
  {
    AlbumScanIsLastMatch(sections);
    var es := AlbumEntries(sections);
    if exists j, e :: IsAlbumEntry(sections, j, e) {
      var j0, e0 :| IsAlbumEntry(sections, j0, e0);
      assert e0 in es;
      var e := es[|es| - 1];
      assert e in es;
      var j :| IsAlbumEntry(sections, j, e);
      assert ScanSections(NoAlbum, sections) == e.text;
    } else if |es| > 0 {
      assert false;
    }
  }

  /** Sections whose type is not "SONG" never contribute: dropping or adding
      one anywhere leaves the album unchanged. */
  lemma {:induction false} OtherSectionsIgnored(before: seq<Section>, other: Section, after: seq<Section>)
    requires other.kind != Some("SONG")
    ensures ScanSections(NoAlbum, before + [other] + after) == ScanSections(NoAlbum, before + after)
  {
    AlbumEntriesSplit(before, [other] + after);
    AlbumEntriesSplit([other], after);
    assert AlbumEntries([other]) == [];
    assert before + [other] + after == before + ([other] + after);
    AlbumEntriesSplit(before, after);
    AlbumScanIsLastMatch(before + [other] + after);
    AlbumScanIsLastMatch(before + after);
  }

  lemma {:induction false} AlbumEntriesSplit(a: seq<Section>, b: seq<Section>)
    ensures AlbumEntries(a + b) == AlbumEntries(a) + AlbumEntries(b)
  {
    if |a| > 0 {
      assert (a + b)[1..] == a[1..] + b;
      AlbumEntriesSplit(a[1..], b);
      assert (a + b)[0] == a[0];
    } else {
      assert a + b == b;
    }
  }

  /** Map a recognition response to `NotFound` or to the extracted record:
      title from `title`, artist from `subtitle`, each "Unknown" when the key
      is missing, and the album of the last matching metadata entry. */
  function Identify(out: Recognition): (r: Identification)
    ensures r.NotFound? <==> out.track.None?
    ensures r.Found? ==> r.info.title == (if out.track.value.title.Some? then out.track.value.title.value else "Unknown")
    ensures r.Found? ==> r.info.artist == (if out.track.value.subtitle.Some? then out.track.value.subtitle.value else "Unknown")
    ensures r.Found? ==> r.info.album == ExpectedAlbum(out.track.value.sections)
  {
    match out.track
    case None => NotFound
    case Some(t) =>
      AlbumScanIsLastMatch(t.sections);
      Found(TrackInfo(t.title.GetOr(Unknown), t.subtitle.GetOr(Unknown), ScanSections(NoAlbum, t.sections)))
  }

  // ---------------------------------------------------------------------
  // Tag container
  // ---------------------------------------------------------------------

  /** The easy-ID3 tag container as a map from tag name to value. */
  type Tags = map<string, string>

  /** `if album:` — the album is written only when it is a non-empty string. */
  predicate AlbumWritten(info: TrackInfo) {
    info.album.Some? && info.album.value != ""
  }

  /** Write title and artist unconditionally and the album only when it is
      non-empty; an existing album tag is then kept, and every other tag is
      left as it was. */
  function ApplyTags(tags: Tags, info: TrackInfo): (r: Tags)
    ensures "title" in r && r["title"] == info.title
    ensures "artist" in r && r["artist"] == info.artist
    ensures AlbumWritten(info) ==> "album" in r && r["album"] == info.album.value
    ensures !AlbumWritten(info) ==> ("album" in r <==> "album" in tags)
    ensures !AlbumWritten(info) && "album" in tags ==> r["album"] == tags["album"]
    ensures forall k :: k in tags && k != "title" && k != "artist" && k != "album" ==> k in r && r[k] == tags[k]
    ensures forall k :: k in r ==> k in tags || k == "title" || k == "artist" || k == "album"
  {
    var t := tags["title" := info.title]["artist" := info.artist];
    if AlbumWritten(info) then t["album" := info.album.value] else t
  }

  /** Writing the same record twice leaves the same tags as writing it once. */
  lemma ApplyTagsIdempotent(tags: Tags, info: TrackInfo)
    ensures ApplyTags(ApplyTags(tags, info), info) == ApplyTags(tags, info)
  {
  }

  /** On an empty container, a record with no album yields exactly the title
      and the artist tags. */
  lemma ApplyTagsFresh(title: string, artist: string)
    ensures ApplyTags(map[], TrackInfo(title, artist, NoAlbum)) == map["title" := title, "artist" := artist]
  {
  }

  // ---------------------------------------------------------------------
  // Delivered file name
  // ---------------------------------------------------------------------

  /** Both path separators, '/' and '\\', replaced by '_'. */
  function Sanitize(s: string): (r: string)
    ensures |r| == |s|
    ensures forall i :: 0 <= i < |s| ==> r[i] == (if s[i] == '/' || s[i] == '\\' then '_' else s[i])
    ensures '/' !in r && '\\' !in r
  {
    Replace(Replace(s, '/', '_'), '\\', '_')
  }

  /** Sanitising twice is sanitising once. */
  lemma SanitizeIdempotent(s: string)
    ensures Sanitize(Sanitize(s)) == Sanitize(s)
  {
  }

  /** Sanitising changes nothing exactly when there is no separator. */
  lemma SanitizeFixedPoints(s: string)
    ensures Sanitize(s) == s <==> ('/' !in s && '\\' !in s)
  {
  }

  /** Sanitising works character by character, so it distributes over
      concatenation. */
  lemma SanitizeConcat(a: string, b: string)
    ensures Sanitize(a + b) == Sanitize(a) + Sanitize(b)
  {
  }

  /** `f"{artist} - {title}"` with the separators replaced, plus ".mp3". */
  function SafeName(info: TrackInfo): (name: string)
    ensures '/' !in name && '\\' !in name
    ensures EndsWith(name, ".mp3")
    ensures |name| == |info.artist| + |info.title| + 3 + 4
  {
    var r := Sanitize(info.artist + " - " + info.title) + ".mp3";
    assert r[|r| - 4..] == ".mp3";
    r
  }

  /** The name is the sanitised artist, " - ", the sanitised title and
      ".mp3", so the separator between the two parts survives intact. */
  lemma SafeNameParts(info: TrackInfo)
    ensures SafeName(info) == Sanitize(info.artist) + " - " + Sanitize(info.title) + ".mp3"
  {
  }

  // ---------------------------------------------------------------------
  // The handler after recognition
  // ---------------------------------------------------------------------

  /** What the handler leaves behind once recognition has answered: the tag
      container and, on a match, the name the file is delivered under. */
  datatype Outcome = Outcome(tags: Tags, delivered: Option<string>)

  /** With no `track` the handler stops: no tag is written and nothing is
      delivered. With a match the tags are updated and the file renamed to
      the safe name. */
  function Finish(out: Recognition, tags: Tags): (o: Outcome)
    ensures out.track.None? ==> o.tags == tags && o.delivered.None?
    ensures out.track.Some? ==> o.delivered.Some? && EndsWith(o.delivered.value, ".mp3")
    ensures out.track.Some? ==> "title" in o.tags && "artist" in o.tags
    ensures out.track.Some? ==> o.tags["title"] == out.track.value.title.GetOr(Unknown)
    ensures out.track.Some? ==> o.tags["artist"] == out.track.value.subtitle.GetOr(Unknown)
  {
    match Identify(out)
    case NotFound => Outcome(tags, None)
    case Found(info) => Outcome(ApplyTags(tags, info), Some(SafeName(info)))
  }
}
