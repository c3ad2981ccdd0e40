/** The album-over-track search filter (internal/indexer/spotify.go). Unicode folding is a
parameter; the letters-and-digits filter behind it is written out. */
module SearchFilter {

  predicate Contains(s: string, sub: string) {
    exists i | 0 <= i <= |s| :: sub <= s[i..]
  }

  /** What it means to contain a text. */
  lemma ContainsMeans(s: string, sub: string)
    ensures Contains(s, sub) <==> exists before, after :: s == before + sub + after
  {
    if Contains(s, sub) {
      var i :| 0 <= i <= |s| && sub <= s[i..];
      assert s == s[..i] + sub + s[i + |sub|..];
    }
    if before, after :| s == before + sub + after {
      assert s[|before|..] == sub + after;
    }
  }

  datatype Entity = Album | Track | Unknown

  datatype Result = Result(artist: string, album: string, entity: string, spotifyUrl: string) {
    /** What the URL points at: the reported entity first, the URL path otherwise. */
    function EntityKind(): Entity {
      if entity == "album" then Album
      else if entity == "track" then Track
      else if Contains(spotifyUrl, "/album/") then Album
      else if Contains(spotifyUrl, "/track/") then Track
      else Unknown
    }

    predicate IsAlbum() {
      EntityKind() == Album
    }
  }

  /** A hit is what it is reported to be; one with no usable report is what its URL points at, an
  album before a track. */
  lemma EntityMeans(r: Result)
    ensures r.entity == "album" ==> r.IsAlbum()
    ensures r.entity == "track" ==> r.EntityKind() == Track
    ensures r.entity != "album" && r.entity != "track" ==>
              && (r.IsAlbum() <==> Contains(r.spotifyUrl, "/album/"))
              && (r.EntityKind() == Track <==> !Contains(r.spotifyUrl, "/album/") && Contains(r.spotifyUrl, "/track/"))
  {
  }

  /** What the Unicode libraries provide: lower-casing with diacritics and ligatures folded,
  and the classes of letters and digits. */
  datatype Unicode = Unicode(fold: string -> string, isAlphanumeric: char -> bool)

  const SEPARATOR: char := '\0'

  function KeepAlphanumeric(s: string, u: Unicode): (r: string)
    ensures forall c | c in r :: u.isAlphanumeric(c)
  {
    if s == "" then "" else (if u.isAlphanumeric(s[0]) then [s[0]] else "") + KeepAlphanumeric(s[1..], u)
  }

  ghost function Normalize(s: string, u: Unicode): (r: string)
    ensures forall c | c in r :: u.isAlphanumeric(c)
  {
    KeepAlphanumeric(u.fold(s), u)
  }

  /** The letters and digits of a text are those of its parts, in order, and all of them. */
  lemma {:induction false} KeepsInOrder(a: string, b: string, u: Unicode)
    ensures KeepAlphanumeric(a + b, u) == KeepAlphanumeric(a, u) + KeepAlphanumeric(b, u)
  {
    if a == "" {
      assert a + b == b;
    } else {
      assert (a + b)[1..] == a[1..] + b;
      KeepsInOrder(a[1..], b, u);
    }
  }

  lemma KeepsOne(c: char, u: Unicode)
    ensures KeepAlphanumeric([c], u) == (if u.isAlphanumeric(c) then [c] else "") && KeepAlphanumeric("", u) == ""
  {
    assert [c][1..] == "";
  }

  method NormalizeForMatch(s: string, u: Unicode) returns (r: string)
    ensures r == Normalize(s, u)
  {
    var folded := u.fold(s);
    r := "";
    for i := 0 to |folded|
      invariant r + KeepAlphanumeric(folded[i..], u) == Normalize(s, u)
    {
      if u.isAlphanumeric(folded[i]) {
        r := r + [folded[i]];
      }
    }
  }

  /** strings.Split(s, ","). */
  function Split(s: string): (parts: seq<string>)
    ensures parts != []
  {
    if s == "" then [""]
    else
      var rest := Split(s[1..]);
      if s[0] == ',' then [""] + rest else [[s[0]] + rest[0]] + rest[1..]
  }

  function Join(parts: seq<string>): string
    requires parts != []
  {
    if |parts| == 1 then parts[0] else parts[0] + "," + Join(parts[1..])
  }

  lemma {:induction false} JoinPrepend(c: char, parts: seq<string>)
    requires parts != []
    ensures Join([[c] + parts[0]] + parts[1..]) == [c] + Join(parts)
  {
    var longer := [[c] + parts[0]] + parts[1..];
    if |parts| == 1 {
      assert longer == [[c] + parts[0]];
    } else {
      assert longer[1..] == parts[1..];
    }
  }

  lemma {:induction false} NoCommaInside(s: string, i: nat)
    requires i < |Split(s)|
    ensures ',' !in Split(s)[i]
  {
    if s != "" {
      var rest := Split(s[1..]);
      if s[0] == ',' {
        if i > 0 {
          NoCommaInside(s[1..], i - 1);
        }
      } else {
        NoCommaInside(s[1..], i);
      }
    }
  }

  lemma {:induction false} JoinSplit(s: string)
    ensures Join(Split(s)) == s
  {
    if s != "" {
      JoinSplit(s[1..]);
      var rest := Split(s[1..]);
      if s[0] == ',' {
        assert ([""] + rest)[1..] == rest;
      } else {
        JoinPrepend(s[0], rest);
      }
    }
  }

  /** Splitting loses nothing and leaves no comma inside a credit. */
  lemma SplitJoins(s: string)
    ensures Join(Split(s)) == s
    ensures forall p | p in Split(s) :: ',' !in p
  {
    JoinSplit(s);
    forall p | p in Split(s) ensures ',' !in p {
      var i :| 0 <= i < |Split(s)| && Split(s)[i] == p;
      NoCommaInside(s, i);
    }
  }

  /** Some credit, or all of them together, is the wanted artist in full. */
  ghost predicate Credits(credits: string, want: string, u: Unicode) {
    Normalize(credits, u) == want || exists c :: c in Split(credits) && Normalize(c, u) == want
  }

  method CreditsArtist(credits: string, want: string, u: Unicode) returns (ok: bool)
    ensures ok <==> Credits(credits, want, u)
  {
    var all := NormalizeForMatch(credits, u);
    if all == want {
      return true;
    }
    var parts := Split(credits);
    for i := 0 to |parts|
      invariant forall c | c in parts[..i] :: Normalize(c, u) != want
    {
      var c := NormalizeForMatch(parts[i], u);
      if c == want {
        return true;
      }
    }
    assert parts[..|parts|] == parts;
    return false;
  }

  ghost function Key(r: Result, u: Unicode): string {
    Normalize(Split(r.artist)[0], u) + [SEPARATOR] + Normalize(r.album, u)
  }

  method ReleaseKey(r: Result, u: Unicode) returns (key: string)
    ensures key == Key(r, u)
  {
    var artist := NormalizeForMatch(Split(r.artist)[0], u);
    var album := NormalizeForMatch(r.album, u);
    return artist + [SEPARATOR] + album;
  }

  lemma {:induction false} SeparatorSplits(a: string, b: string, c: string, d: string)
    requires SEPARATOR !in a && SEPARATOR !in c
    requires a + [SEPARATOR] + b == c + [SEPARATOR] + d
    ensures a == c && b == d
  {
    var s, t := a + [SEPARATOR] + b, c + [SEPARATOR] + d;
    assert s[|a|] == SEPARATOR && t[|c|] == SEPARATOR;
    assert forall i | 0 <= i < |a| :: s[i] == a[i];
    assert forall i | 0 <= i < |c| :: t[i] == c[i];
    assert |a| == |c|;
    assert a == s[..|a|] && c == t[..|c|];
    assert b == s[|a| + 1..] && d == t[|c| + 1..];
  }

  /** Two hits share a release key exactly when the first credits and the albums both
  normalise to the same name: the separator is not alphanumeric. */
  lemma KeysEqualIffPartsEqual(r: Result, q: Result, u: Unicode)
    requires !u.isAlphanumeric(SEPARATOR)
    ensures Key(r, u) == Key(q, u) <==>
            && Normalize(Split(r.artist)[0], u) == Normalize(Split(q.artist)[0], u)
            && Normalize(r.album, u) == Normalize(q.album, u)
  {
    if Key(r, u) == Key(q, u) {
      SeparatorSplits(Normalize(Split(r.artist)[0], u), Normalize(r.album, u),
                      Normalize(Split(q.artist)[0], u), Normalize(q.album, u));
    }
  }

  // ---------- The filter ----------

  /** A hit answers the query: it names an album, and artist and album match as far as asked. */
  ghost predicate Matches(r: Result, artist: string, album: string, u: Unicode) {
    && r.album != ""
    && (Normalize(artist, u) != "" ==> Credits(r.artist, Normalize(artist, u), u))
    && (Normalize(album, u) != "" ==> Contains(Normalize(r.album, u), Normalize(album, u)))
  }

  /** Some matching album hit stands for the same release. */
  ghost predicate Covered(results: seq<Result>, r: Result, artist: string, album: string, u: Unicode) {
    exists a :: a in results && a.IsAlbum() && Matches(a, artist, album, u) && Key(a, u) == Key(r, u)
  }

  /** A hit that survives the filter of `results`. */
  ghost predicate Kept(results: seq<Result>, r: Result, artist: string, album: string, u: Unicode) {
    Matches(r, artist, album, u) && (r.IsAlbum() || !Covered(results, r, artist, album, u))
  }

  /** The kept hits among the first `n`, in their order. */
  ghost function KeptAmong(results: seq<Result>, n: nat, artist: string, album: string, u: Unicode): seq<Result>
    requires n <= |results|
  {
    if n == 0 then []
    else KeptAmong(results, n - 1, artist, album, u)
         + (if Kept(results, results[n - 1], artist, album, u) then [results[n - 1]] else [])
  }

  ghost function Filtered(results: seq<Result>, artist: string, album: string, u: Unicode): seq<Result> {
    KeptAmong(results, |results|, artist, album, u)
  }

  method MatchesQuery(r: Result, wantArtist: string, wantAlbum: string, u: Unicode, ghost artist: string,
      ghost album: string)
    returns (ok: bool)
    requires wantArtist == Normalize(artist, u) && wantAlbum == Normalize(album, u)
    ensures ok <==> Matches(r, artist, album, u)
  {
    if r.album == "" {
      return false;
    }
    if wantArtist != "" {
      var credited := CreditsArtist(r.artist, wantArtist, u);
      if !credited {
        return false;
      }
    }
    if wantAlbum != "" {
      var name := NormalizeForMatch(r.album, u);
      if !Contains(name, wantAlbum) {
        return false;
      }
    }
    return true;
  }

  method FilterResults(results: seq<Result>, artist: string, album: string, u: Unicode) returns (filtered: seq<Result>)
    ensures filtered == Filtered(results, artist, album, u)
  {
    var wantArtist := NormalizeForMatch(artist, u);
    var wantAlbum := NormalizeForMatch(album, u);
    var albums: map<string, bool> := map[];
    for i := 0 to |results|
      invariant forall key :: key in albums && albums[key] <==>
                  exists a :: a in results[..i] && a.IsAlbum() && Matches(a, artist, album, u) && Key(a, u) == key
    {
      var r := results[i];
      assert results[..i + 1] == results[..i] + [r];
      var ok := MatchesQuery(r, wantArtist, wantAlbum, u, artist, album);
      if ok && r.IsAlbum() {
        var key := ReleaseKey(r, u);
        albums := albums[key := true];
      }
    }
    assert results[..|results|] == results;
    filtered := [];
    for i := 0 to |results|
      invariant filtered == KeptAmong(results, i, artist, album, u)
    {
      var r := results[i];
      var ok := MatchesQuery(r, wantArtist, wantAlbum, u, artist, album);
      if !ok {
        continue;
      }
      var key := ReleaseKey(r, u);
      assert key in albums && albums[key] <==> Covered(results, r, artist, album, u);
      if !r.IsAlbum() && key in albums && albums[key] {
        continue;
      }
      filtered := filtered + [r];
    }
  }

  ghost predicate Increasing(idx: seq<nat>) {
    forall i, j | 0 <= i < j < |idx| :: idx[i] < idx[j]
  }

  lemma OneMorePosition(before: seq<nat>, n: nat)
    requires Increasing(before) && forall i | i in before :: i < n
    ensures Increasing(before + [n]) && forall i :: i in before + [n] <==> i in before || i == n
  {
    var more := before + [n];
    forall i, j | 0 <= i < j < |more| ensures more[i] < more[j] {
      assert more[i] in before;
    }
  }

  /** The filter is an order-preserving selection of positions: exactly the positions of kept
  hits, each once and in order. */
  lemma {:induction false} FilteredPositions(results: seq<Result>, n: nat, artist: string, album: string, u: Unicode)
    returns (idx: seq<nat>)
    requires n <= |results|
    ensures |idx| == |KeptAmong(results, n, artist, album, u)| && Increasing(idx)
    ensures forall k | 0 <= k < |idx| :: idx[k] < n && KeptAmong(results, n, artist, album, u)[k] == results[idx[k]]
    ensures forall i | i in idx :: i < n
    ensures forall i | 0 <= i < n :: i in idx <==> Kept(results, results[i], artist, album, u)
  {
    if n == 0 {
      idx := [];
    } else {
      var before := FilteredPositions(results, n - 1, artist, album, u);
      if Kept(results, results[n - 1], artist, album, u) {
        idx := before + [n - 1];
        OneMorePosition(before, n - 1);
        assert KeptAmong(results, n, artist, album, u)
            == KeptAmong(results, n - 1, artist, album, u) + [results[n - 1]];
      } else {
        idx := before;
      }
    }
  }

  lemma KeptMembers(results: seq<Result>, artist: string, album: string, u: Unicode, r: Result)
    ensures r in Filtered(results, artist, album, u) <==> r in results && Kept(results, r, artist, album, u)
  {
    var idx := FilteredPositions(results, |results|, artist, album, u);
    if r in Filtered(results, artist, album, u) {
      var k :| 0 <= k < |idx| && Filtered(results, artist, album, u)[k] == r;
      assert idx[k] in idx;
    }
    if r in results && Kept(results, r, artist, album, u) {
      var i :| 0 <= i < |results| && results[i] == r;
      assert i in idx;
      var k :| 0 <= k < |idx| && idx[k] == i;
    }
  }

  /** Every matching album stays, and a matching track goes exactly when a matching album has
  its release key; nothing is left that an album covers. */
  lemma AlbumsWinTheirRelease(results: seq<Result>, artist: string, album: string, u: Unicode, r: Result)
    requires r in results && Matches(r, artist, album, u)
    ensures r.IsAlbum() ==> r in Filtered(results, artist, album, u)
    ensures !r.IsAlbum() ==> (r !in Filtered(results, artist, album, u) <==> Covered(results, r, artist, album, u))
    ensures Covered(results, r, artist, album, u) <==> Covered(Filtered(results, artist, album, u), r, artist, album, u)
  {
    KeptMembers(results, artist, album, u, r);
    forall a: Result | a.IsAlbum() && Matches(a, artist, album, u)
      ensures a in results <==> a in Filtered(results, artist, album, u)
    {
      KeptMembers(results, artist, album, u, a);
    }
  }

  /** What it takes to answer a query: an album is named; each of the wanted artist and album that
  is not blank is met, the artist by one full credit or by all of them together, the album by a
  name that contains it; letters and digits alone decide. */
  lemma MatchesMeans(r: Result, artist: string, album: string, u: Unicode)
    ensures var wanted, credits := KeepAlphanumeric(u.fold(artist), u), KeepAlphanumeric(u.fold(r.artist), u);
            var title, name := KeepAlphanumeric(u.fold(album), u), KeepAlphanumeric(u.fold(r.album), u);
            Matches(r, artist, album, u) <==>
              && r.album != ""
              && (wanted == "" || credits == wanted
                  || exists c :: c in Split(r.artist) && KeepAlphanumeric(u.fold(c), u) == wanted)
              && (title == "" || exists before, after :: name == before + title + after)
  {
    ContainsMeans(KeepAlphanumeric(u.fold(r.album), u), KeepAlphanumeric(u.fold(album), u));
    if c :| c in Split(r.artist) && Normalize(c, u) == Normalize(artist, u) {
      assert KeepAlphanumeric(u.fold(c), u) == KeepAlphanumeric(u.fold(artist), u);
    }
  }

  /** The filter in its own terms: a hit stays if and only if it is among the results, answers the
  query, and is itself an album or shares first artist and album with none that does. */
  lemma StaysIff(results: seq<Result>, artist: string, album: string, u: Unicode, r: Result)
    requires !u.isAlphanumeric(SEPARATOR)
    ensures r in Filtered(results, artist, album, u) <==>
              && r in results && Matches(r, artist, album, u)
              && (r.IsAlbum() ||
                    !exists a :: a in results && a.IsAlbum() && Matches(a, artist, album, u)
                      && Normalize(Split(a.artist)[0], u) == Normalize(Split(r.artist)[0], u)
                      && Normalize(a.album, u) == Normalize(r.album, u))
  {
    KeptMembers(results, artist, album, u, r);
    forall a: Result
      ensures Key(a, u) == Key(r, u) <==>
                Normalize(Split(a.artist)[0], u) == Normalize(Split(r.artist)[0], u)
                && Normalize(a.album, u) == Normalize(r.album, u)
    {
      KeysEqualIffPartsEqual(a, r, u);
    }
  }

  lemma {:induction false} KeepingAll(results: seq<Result>, n: nat, artist: string, album: string, u: Unicode)
    requires n <= |results|
    requires forall r | r in results :: Kept(results, r, artist, album, u)
    ensures KeptAmong(results, n, artist, album, u) == results[..n]
  {
    if n > 0 {
      KeepingAll(results, n - 1, artist, album, u);
      assert results[..n] == results[..n - 1] + [results[n - 1]];
    }
  }

  lemma FilterIsIdempotent(results: seq<Result>, artist: string, album: string, u: Unicode)
    ensures Filtered(Filtered(results, artist, album, u), artist, album, u) == Filtered(results, artist, album, u)
  {
    var once := Filtered(results, artist, album, u);
    forall r | r in once ensures Kept(once, r, artist, album, u) {
      KeptMembers(results, artist, album, u, r);
      AlbumsWinTheirRelease(results, artist, album, u, r);
    }
    KeepingAll(once, |once|, artist, album, u);
    assert once[..|once|] == once;
  }
}
