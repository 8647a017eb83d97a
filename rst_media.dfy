/**
 * rst2html.py, the `media` directive: a URI is rendered as a video when the
 * text after its last '.' is a known video extension, as an image otherwise.
 * Python's `str.split` on one separator character is modelled here too; the
 * HTML writer uses it to cut a video's URI list at commas.
 */
module RstMedia {

  /** `s.split(c)`: the maximal runs between separators, empty runs included. */
  function SplitOn(s: string, c: char): (parts: seq<string>)
    ensures |parts| >= 1
  {
    if s == [] then [""]
    else if s[0] == c then [""] + SplitOn(s[1..], c)
    else
      var r := SplitOn(s[1..], c);
      [[s[0]] + r[0]] + r[1..]
  }

  /** `c.join(parts)`. */
  function JoinOn(parts: seq<string>, c: char): (s: string)
    requires |parts| >= 1
    decreases |parts|
  {
    if |parts| == 1 then parts[0] else parts[0] + [c] + JoinOn(parts[1..], c)
  }

  function Last<T>(s: seq<T>): T
    requires |s| >= 1
  {
    s[|s| - 1]
  }

  /** Splitting and joining again gives back the string, and no part holds the separator. */
  lemma {:induction false} SplitJoin(s: string, c: char)
    ensures JoinOn(SplitOn(s, c), c) == s
    ensures forall k :: 0 <= k < |SplitOn(s, c)| ==> c !in SplitOn(s, c)[k]
  {
    if s != [] {
      SplitJoin(s[1..], c);
      var r := SplitOn(s[1..], c);
      if s[0] == c {
        assert SplitOn(s, c)[1..] == r;
      } else {
        var parts := SplitOn(s, c);
        assert parts[1..] == r[1..];
        if |r| > 1 {
          assert JoinOn(r, c) == r[0] + [c] + JoinOn(r[1..], c);
        }
        assert s == [s[0]] + s[1..];
        forall k | 0 <= k < |parts| ensures c !in parts[k] {
          if k > 0 { assert parts[k] == r[k]; }
        }
      }
    }
  }

  /** A string without the separator is its own only part. */
  lemma {:induction false} SplitNone(s: string, c: char)
    requires c !in s
    ensures SplitOn(s, c) == [s]
  {
    if s != [] {
      assert c !in s[1..] by {
        forall k | 0 <= k < |s[1..]| ensures s[1..][k] != c { assert s[1..][k] == s[k + 1]; }
      }
      SplitNone(s[1..], c);
      assert [s[0]] + s[1..] == s;
    }
  }

  /** Whatever precedes the last separator, the last part is what follows it. */
  lemma {:induction false} SplitLastAfter(p: string, c: char, e: string)
    ensures |SplitOn(p + [c] + e, c)| >= 2
    ensures Last(SplitOn(p + [c] + e, c)) == Last(SplitOn(e, c))
  {
    var s := p + [c] + e;
    if p == [] {
      assert s[0] == c && s[1..] == e;
    } else {
      assert s[0] == p[0] && s[1..] == p[1..] + [c] + e;
      SplitLastAfter(p[1..], c, e);
    }
  }

  /** `uri.split('.')[-1]`. */
  function Extension(uri: string): (e: string)
  {
    Last(SplitOn(uri, '.'))
  }

  /** The extension is the text after the last dot, or the whole URI when it has none. */
  lemma ExtensionAfterLastDot(p: string, e: string)
    requires '.' !in e
    ensures Extension(p + "." + e) == e
    ensures '.' !in p ==> Extension(p) == p
  {
    SplitLastAfter(p, '.', e);
    SplitNone(e, '.');
    if '.' !in p {
      SplitNone(p, '.');
    }
  }

  const VideoExtensions: seq<string> := ["ogg", "mpg", "mp4", "avi", "mpeg", "webm"]

  datatype Media = Video(uri: string) | Image(uri: string)

  /** `Media.run`: the directive that renders the URI. */
  function MediaRun(uri: string): (m: Media)
    ensures m.uri == uri
  {
    if Extension(uri) in VideoExtensions then Video(uri) else Image(uri)
  }

  /**
   * A URI whose last dot is followed by `e` is a video exactly when `e` is
   * one of the six extensions, compared case-sensitively: `clip.MP4` and
   * `clip.mp4.png` are images, `clip.png.webm` is a video.
   */
  lemma MediaByExtension(p: string, e: string)
    requires '.' !in e
    ensures MediaRun(p + "." + e).Video? <==> e in VideoExtensions
    ensures e == "MP4" || e == "png" ==> MediaRun(p + "." + e).Image?
    ensures e == "webm" ==> MediaRun(p + "." + e) == Video(p + "." + e)
  {
    ExtensionAfterLastDot(p, e);
  }

  /** A URI without any dot is judged on its whole text: `webm` alone is a video. */
  lemma MediaWithoutDot(uri: string)
    requires '.' !in uri
    ensures MediaRun(uri).Video? <==> uri in VideoExtensions
  {
    ExtensionAfterLastDot(uri, "");
  }
}
