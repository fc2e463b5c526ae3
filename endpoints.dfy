/** The fixed URLs the client requests: the search page, the two JSON endpoints and the
    original-resolution image URL built from an artwork's timestamp. An id is inserted as the
    text `str(id)` gives for it. */
module Endpoints {
  import opened Digits
  import opened UpdateDate

  const SearchUserUrl: string := "https://www.pixiv.net/search_user.php"

  /** `user_artworks_url(user_id)`. */
  function UserArtworksUrl(userId: string): string {
    "https://www.pixiv.net/ajax/user/" + userId + "/profile/all?lang=zh"
  }

  /** `artwork_info_url(user_id, artwork_id)`; `ids%5B%5D` is the query key `ids[]` encoded. */
  function ArtworkInfoUrl(userId: string, artworkId: string): string {
    "https://www.pixiv.net/ajax/user/" + userId + "/illusts?ids%5B%5D=" + artworkId + "&lang=zh"
  }

  /** The original image of an artwork: the captured timestamp groups, verbatim, as path segments. */
  function ImageUrl(f: DateFields, artworkId: string): string {
    "https://i.pximg.net/img-original/img/" + f.year + "/" + f.month + "/" + f.day + "/" +
    f.hour + "/" + f.minute + "/" + f.second + "/" + artworkId + "_p0.jpg"
  }

  /** Two texts around the same prefix and suffix are equal when the wholes are. */
  lemma StripAround(p: string, x: string, y: string, q: string)
    requires p + x + q == p + y + q
    ensures x == y
  {
    assert |x| == |y|;
    assert (p + x + q)[|p|..|p| + |x|] == x;
    assert (p + y + q)[|p|..|p| + |y|] == y;
  }

  lemma StripPrefix(p: string, x: string, y: string)
    requires p + x == p + y
    ensures x == y
  {
    assert (p + x)[|p|..] == x && (p + y)[|p|..] == y;
  }

  lemma StripSuffix(x: string, y: string, q: string)
    requires x + q == y + q
    ensures x == y
  {
    assert (x + q)[..|x|] == x && (y + q)[..|y|] == y;
  }

  /** The first `/` of `a + "/" + b` is the one after `a`, when `a` holds none. */
  lemma FirstSlash(a: string, b: string)
    requires '/' !in a
    ensures (a + "/" + b)[|a|] == '/'
    ensures forall k :: 0 <= k < |a| ==> (a + "/" + b)[k] != '/'
  {
    forall k | 0 <= k < |a| ensures (a + "/" + b)[k] != '/' {
      assert (a + "/" + b)[k] == a[k];
    }
  }

  /** A split at the first `/` is unique: a segment without `/` is fixed by the whole. */
  lemma SplitAtSlash(a: string, b: string, c: string, d: string)
    requires '/' !in a && '/' !in c
    requires a + "/" + b == c + "/" + d
    ensures a == c && b == d
  {
    var s := a + "/" + b;
    FirstSlash(a, b);
    FirstSlash(c, d);
    assert s[..|a|] == a && (c + "/" + d)[..|c|] == c;
    assert s[|a| + 1..] == b && (c + "/" + d)[|c| + 1..] == d;
  }

  lemma DigitRunHasNoSlash(s: string)
    requires IsDigitRun(s)
    ensures '/' !in s
  {
  }

  /** Distinct user ids give distinct artwork-listing URLs. */
  lemma UserArtworksUrlInjective(u1: string, u2: string)
    requires UserArtworksUrl(u1) == UserArtworksUrl(u2)
    ensures u1 == u2
  {
    StripAround("https://www.pixiv.net/ajax/user/", u1, u2, "/profile/all?lang=zh");
  }

  /** The info URL determines both ids, as long as the user id holds no `/` (a numeric id never does). */
  lemma ArtworkInfoUrlInjective(u1: string, a1: string, u2: string, a2: string)
    requires '/' !in u1 && '/' !in u2
    requires ArtworkInfoUrl(u1, a1) == ArtworkInfoUrl(u2, a2)
    ensures u1 == u2 && a1 == a2
  {
    var p := "https://www.pixiv.net/ajax/user/";
    var t1 := "illusts?ids%5B%5D=" + a1 + "&lang=zh";
    var t2 := "illusts?ids%5B%5D=" + a2 + "&lang=zh";
    assert ArtworkInfoUrl(u1, a1) == p + (u1 + "/" + t1);
    assert ArtworkInfoUrl(u2, a2) == p + (u2 + "/" + t2);
    StripPrefix(p, u1 + "/" + t1, u2 + "/" + t2);
    SplitAtSlash(u1, t1, u2, t2);
    StripAround("illusts?ids%5B%5D=", a1, a2, "&lang=zh");
  }

  /** `ImageUrl` right-associated, one path segment at a time. */
  function ImagePath(f: DateFields, artworkId: string): string {
    f.year + "/" + (f.month + "/" + (f.day + "/" + (f.hour + "/" + (f.minute + "/" +
      (f.second + "/" + (artworkId + "_p0.jpg"))))))
  }

  lemma ImageUrlPath(f: DateFields, artworkId: string)
    ensures ImageUrl(f, artworkId) == "https://i.pximg.net/img-original/img/" + ImagePath(f, artworkId)
  {
  }

  /** The image URL gives back the six timestamp groups and the artwork id it was built from. */
  lemma ImageUrlInjective(f1: DateFields, a1: string, f2: DateFields, a2: string)
    requires ValidFields(f1) && ValidFields(f2)
    requires ImageUrl(f1, a1) == ImageUrl(f2, a2)
    ensures f1 == f2 && a1 == a2
  {
    var base := "https://i.pximg.net/img-original/img/";
    ImageUrlPath(f1, a1);
    ImageUrlPath(f2, a2);
    StripPrefix(base, ImagePath(f1, a1), ImagePath(f2, a2));
    DigitRunHasNoSlash(f1.year); DigitRunHasNoSlash(f2.year);
    DigitRunHasNoSlash(f1.month); DigitRunHasNoSlash(f2.month);
    DigitRunHasNoSlash(f1.day); DigitRunHasNoSlash(f2.day);
    DigitRunHasNoSlash(f1.hour); DigitRunHasNoSlash(f2.hour);
    DigitRunHasNoSlash(f1.minute); DigitRunHasNoSlash(f2.minute);
    DigitRunHasNoSlash(f1.second); DigitRunHasNoSlash(f2.second);
    var s6 := f1.second + "/" + (a1 + "_p0.jpg");
    var s5 := f1.minute + "/" + s6;
    var s4 := f1.hour + "/" + s5;
    var s3 := f1.day + "/" + s4;
    var s2 := f1.month + "/" + s3;
    var r6 := f2.second + "/" + (a2 + "_p0.jpg");
    var r5 := f2.minute + "/" + r6;
    var r4 := f2.hour + "/" + r5;
    var r3 := f2.day + "/" + r4;
    var r2 := f2.month + "/" + r3;
    SplitAtSlash(f1.year, s2, f2.year, r2);
    SplitAtSlash(f1.month, s3, f2.month, r3);
    SplitAtSlash(f1.day, s4, f2.day, r4);
    SplitAtSlash(f1.hour, s5, f2.hour, r5);
    SplitAtSlash(f1.minute, s6, f2.minute, r6);
    SplitAtSlash(f1.second, a1 + "_p0.jpg", f2.second, a2 + "_p0.jpg");
    StripSuffix(a1, a2, "_p0.jpg");
  }

  /** Characters that section 2.3 of RFC 3986 leaves unencoded. */
  predicate Unreserved(c: char) {
    ('A' <= c <= 'Z') || ('a' <= c <= 'z') || ('0' <= c <= '9') || c == '-' || c == '.' || c == '_' || c == '~'
  }

  const HexDigits: string := "0123456789ABCDEF"

  /** Percent-encoding of section 2.1 of RFC 3986 for ASCII text: every character outside the
      unreserved set becomes `%` and two upper-case hex digits of its code. */
  function PercentEncode(s: string): (r: string)
    requires forall i :: 0 <= i < |s| ==> s[i] as int < 0x80
    ensures (forall i :: 0 <= i < |s| ==> Unreserved(s[i])) ==> r == s
  {
    if s == [] then []
    else
      var c := s[0];
      var head := if Unreserved(c) then [c] else ['%', HexDigits[c as int / 16], HexDigits[c as int % 16]];
      head + PercentEncode(s[1..])
  }

  /** The query key of the info URL is `ids[]`, percent-encoded. */
  lemma IdsKeyIsPercentEncoded()
    ensures PercentEncode("ids[]") == "ids%5B%5D"
  {
    assert PercentEncode("]") == "%5D";
    assert PercentEncode("[]") == "%5B%5D";
    assert PercentEncode("s[]") == "s%5B%5D";
    assert PercentEncode("ds[]") == "ds%5B%5D";
  }
}
