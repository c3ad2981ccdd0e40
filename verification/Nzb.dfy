/** The synthetic NZB printer and parser (internal/indexer/nzb.go). The XML text codec is a
parameter; everything between a release and the document's head is written out. */
module Nzb {
  import opened Decimal

  datatype Result<T> = Ok(value: T) | Err(error: string)

  datatype Release = Release(spotifyUrl: string, name: string, category: string, size: int, trackCount: int, date: int)

  const EMPTY: Release := Release("", "", "", 0, 0, 0)

  datatype Meta = Meta(key: string, value: string)

  /** The parts of the document the program fills in; the rest is constant. */
  datatype Document = Document(head: seq<Meta>, fileDate: int, subject: string, segmentBytes: int)

  /** encoding/xml, as far as it is used: text out, and a document or a failure back. */
  datatype Codec = Codec(marshal: Document -> string, unmarshal: string -> Result<Document>)

  /** The codec gives back the document it printed. */
  ghost predicate Inverse(codec: Codec, doc: Document) {
    codec.unmarshal(codec.marshal(doc)) == Ok(doc)
  }

  /** The Go integer fields hold 64-bit values. */
  ghost predicate InRange(r: Release) {
    MIN_INT64 <= r.size <= MAX_INT64 && MIN_INT64 <= r.trackCount <= MAX_INT64
  }

  method GenerateNZBRelease(r: Release, codec: Codec) returns (text: string)
    ensures text == codec.marshal(ToDocument(r))
  {
    var meta := [Meta("spotify_url", r.spotifyUrl), Meta("name", r.name), Meta("category", r.category)];
    if r.size > 0 {
      meta := meta + [Meta("size", FormatInt(r.size))];
    }
    if r.trackCount > 0 {
      meta := meta + [Meta("track_count", FormatInt(r.trackCount))];
    }
    var segmentBytes := r.size;
    if segmentBytes <= 0 {
      segmentBytes := 1;
    }
    var doc := Document(meta, r.date, r.name, segmentBytes);
    assert doc.head == ToDocument(r).head;
    return codec.marshal(doc);
  }

  ghost function ToDocument(r: Release): Document {
    Document(
      [Meta("spotify_url", r.spotifyUrl), Meta("name", r.name), Meta("category", r.category)]
      + (if r.size > 0 then [Meta("size", FormatInt(r.size))] else [])
      + (if r.trackCount > 0 then [Meta("track_count", FormatInt(r.trackCount))] else []),
      r.date, r.name, if r.size > 0 then r.size else 1)
  }

  /** The value of the last entry of that kind, or the default when there is none. */
  ghost function LastValue(metas: seq<Meta>, key: string, default: string): string {
    if metas == [] then default
    else if metas[|metas| - 1].key == key then metas[|metas| - 1].value
    else LastValue(metas[..|metas| - 1], key, default)
  }

  lemma {:induction false} LastValueIsLast(metas: seq<Meta>, key: string, default: string, i: nat)
    requires i < |metas| && metas[i].key == key
    requires forall j | i < j < |metas| :: metas[j].key != key
    ensures LastValue(metas, key, default) == metas[i].value
  {
    if i < |metas| - 1 {
      LastValueIsLast(metas[..|metas| - 1], key, default, i);
    }
  }

  /** What parsing a head means: each field from the last entry of its kind, the numbers
  through strconv with its error ignored. */
  ghost function FromHead(metas: seq<Meta>): Release {
    Release(
      LastValue(metas, "spotify_url", ""), LastValue(metas, "name", ""), LastValue(metas, "category", ""),
      ParseInt(LastValue(metas, "size", "0")).value, ParseInt(LastValue(metas, "track_count", "0")).value, 0)
  }

  /** What parsing a text means: the head of the document, refused without a Spotify URL. */
  ghost function Parse(text: string, codec: Codec): Result<Release> {
    match codec.unmarshal(text)
    case Err(e) => Err("parse nzb: " + e)
    case Ok(doc) =>
      var r := FromHead(doc.head);
      if r.spotifyUrl == "" then Err("no spotify_url meta in nzb") else Ok(r)
  }

  method ParseNZBMeta(text: string, codec: Codec) returns (res: Result<Release>)
    ensures res == Parse(text, codec)
  {
    var parsed := codec.unmarshal(text);
    if parsed.Err? {
      return Err("parse nzb: " + parsed.error);
    }
    var metas := parsed.value.head;
    var r := EMPTY;
    for i := 0 to |metas|
      invariant r == FromHead(metas[..i])
    {
      assert metas[..i + 1][..i] == metas[..i];
      var m := metas[i];
      match m.key {
        case "spotify_url" => r := r.(spotifyUrl := m.value);
        case "name" => r := r.(name := m.value);
        case "category" => r := r.(category := m.value);
        case "size" => r := r.(size := ParseInt(m.value).value);
        case "track_count" => r := r.(trackCount := ParseInt(m.value).value);
        case _ =>
      }
    }
    assert metas[..|metas|] == metas;
    if r.spotifyUrl == "" {
      return Err("no spotify_url meta in nzb");
    }
    return Ok(r);
  }

  /** The round trip through the head: text fields come back as they were, a positive number
  as it was, any other number as 0, and the date not at all. */
  lemma HeadRoundTrip(r: Release)
    requires InRange(r)
    ensures FromHead(ToDocument(r).head) ==
            r.(size := if r.size > 0 then r.size else 0,
               trackCount := if r.trackCount > 0 then r.trackCount else 0,
               date := 0)
  {
    var h := ToDocument(r).head;
    LastValueIsLast(h, "spotify_url", "", 0);
    LastValueIsLast(h, "name", "", 1);
    LastValueIsLast(h, "category", "", 2);
    SizeRoundTrip(r);
    TracksRoundTrip(r);
  }

  lemma SizeRoundTrip(r: Release)
    requires InRange(r)
    ensures ParseInt(LastValue(ToDocument(r).head, "size", "0")).value == if r.size > 0 then r.size else 0
  {
    var h := ToDocument(r).head;
    if r.size > 0 {
      LastValueIsLast(h, "size", "0", 3);
      ParseFormatRoundTrip(r.size);
    } else {
      Missing(h, "size", "0");
      ParseFormatRoundTrip(0);
    }
  }

  lemma TracksRoundTrip(r: Release)
    requires InRange(r)
    ensures ParseInt(LastValue(ToDocument(r).head, "track_count", "0")).value ==
            if r.trackCount > 0 then r.trackCount else 0
  {
    var h := ToDocument(r).head;
    if r.trackCount > 0 {
      LastValueIsLast(h, "track_count", "0", |h| - 1);
      ParseFormatRoundTrip(r.trackCount);
    } else {
      Missing(h, "track_count", "0");
      ParseFormatRoundTrip(0);
    }
  }

  lemma {:induction false} Missing(metas: seq<Meta>, key: string, default: string)
    requires forall j | 0 <= j < |metas| :: metas[j].key != key
    ensures LastValue(metas, key, default) == default
  {
    if metas != [] {
      Missing(metas[..|metas| - 1], key, default);
    }
  }

  /** Printing a release and parsing the text: it comes back exactly when it has a Spotify
  URL, and is refused otherwise. */
  lemma ReleaseRoundTrip(r: Release, codec: Codec)
    requires InRange(r) && Inverse(codec, ToDocument(r))
    ensures var res := Parse(codec.marshal(ToDocument(r)), codec);
            if r.spotifyUrl == "" then res.Err?
            else res == Ok(r.(size := if r.size > 0 then r.size else 0,
                              trackCount := if r.trackCount > 0 then r.trackCount else 0,
                              date := 0))
  {
    HeadRoundTrip(r);
  }

  /** The rest of the printed document: its subject is the name, its date the release's, its one
  segment as long as the release, or one byte when the length is not known; and a size or track
  count that is not positive is not written. */
  lemma DocumentCarries(r: Release)
    ensures ToDocument(r).subject == r.name && ToDocument(r).fileDate == r.date
    ensures ToDocument(r).segmentBytes > 0 && (r.size > 0 ==> ToDocument(r).segmentBytes == r.size)
    ensures r.size <= 0 ==> ToDocument(r).segmentBytes == 1
    ensures forall m | m in ToDocument(r).head ::
              m.key == "spotify_url" || m.key == "name" || m.key == "category"
              || (m.key == "size" && r.size > 0) || (m.key == "track_count" && r.trackCount > 0)
  {
  }

  /** Two releases whose printed texts are equal are equal. */
  lemma PrintingIsInjective(a: Release, b: Release, codec: Codec)
    requires InRange(a) && InRange(b) && a.size >= 0 && a.trackCount >= 0 && b.size >= 0 && b.trackCount >= 0
    requires Inverse(codec, ToDocument(a)) && Inverse(codec, ToDocument(b))
    requires codec.marshal(ToDocument(a)) == codec.marshal(ToDocument(b))
    ensures a == b
  {
    HeadRoundTrip(a);
    HeadRoundTrip(b);
  }
}
