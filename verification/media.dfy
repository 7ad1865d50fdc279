/**
 Choosing a player for a media path (`createMediaPlayer`, identical in both
 scripts): the extension is `path.split('.').pop().toLowerCase()`, and two
 fixed tables sort it into video, audio or unsupported.
 */
module Media {
  import opened Wrappers
  import opened Strings

  /** `s.split(sep)` with a one-character separator: the pieces between
      separators, in order; the empty string gives one empty piece. */
  function Split(s: string, sep: char): (pieces: seq<string>)
    ensures |pieces| > 0
    ensures forall i :: 0 <= i < |pieces| ==> sep !in pieces[i]
    ensures Join(pieces, sep) == s
    decreases |s|
  {
    if |s| == 0 then [""]
    else
      var rest := Split(s[1..], sep);
      if s[0] == sep then
        assert ([""] + rest)[1..] == rest;
        [""] + rest
      else
        var pieces := [[s[0]] + rest[0]] + rest[1..];
        assert pieces[1..] == rest[1..];
        assert sep !in pieces[0];
        pieces
  }

  /** `pieces.join(sep)`: the inverse of Split. */
  function Join(pieces: seq<string>, sep: char): string
    requires |pieces| > 0
  {
    if |pieces| == 1 then pieces[0] else pieces[0] + [sep] + Join(pieces[1..], sep)
  }

  /** Joining and splitting again gives back the same pieces when none holds the separator. */
  lemma {:induction false} SplitJoin(pieces: seq<string>, sep: char)
    requires |pieces| > 0
    requires forall i :: 0 <= i < |pieces| ==> sep !in pieces[i]
    ensures Split(Join(pieces, sep), sep) == pieces
    decreases |Join(pieces, sep)|, |pieces[0]|
  {
    var s := Join(pieces, sep);
    if |pieces[0]| == 0 {
      if |pieces| > 1 {
        assert s == [sep] + Join(pieces[1..], sep);
        assert s[1..] == Join(pieces[1..], sep);
        SplitJoin(pieces[1..], sep);
        assert [""] + pieces[1..] == pieces;
      }
    } else {
      var c := pieces[0][0];
      var tail := [pieces[0][1..]] + pieces[1..];
      assert tail[1..] == pieces[1..];
      JoinFirst(pieces, sep);
      assert s == [c] + Join(tail, sep);
      assert s[1..] == Join(tail, sep);
      assert sep !in tail[0];
      SplitJoin(tail, sep);
      assert c != sep;
      assert [c] + tail[0] == pieces[0];
      assert [[c] + tail[0]] + tail[1..] == pieces;
    }
  }

  /** The first character of a join with a non-empty first piece. */
  lemma JoinFirst(pieces: seq<string>, sep: char)
    requires |pieces| > 0 && |pieces[0]| > 0
    ensures Join(pieces, sep) == [pieces[0][0]] + Join([pieces[0][1..]] + pieces[1..], sep)
  {
    var tail := [pieces[0][1..]] + pieces[1..];
    assert tail[1..] == pieces[1..];
  }

  /** Splitting off the last piece of a join. */
  lemma {:induction false} JoinLast(pieces: seq<string>, sep: char)
    requires |pieces| > 1
    ensures Join(pieces, sep) == Join(pieces[..|pieces| - 1], sep) + [sep] + pieces[|pieces| - 1]
  {
    if |pieces| > 2 {
      JoinLast(pieces[1..], sep);
      assert pieces[1..][..|pieces| - 2] == pieces[..|pieces| - 1][1..];
    }
  }

  /** `r` is the longest suffix of `s` that holds no `sep`: either all of `s`,
      or what follows its last `sep`. */
  ghost predicate LongestSuffixWithout(s: string, r: string, sep: char) {
    && |r| <= |s|
    && r == s[|s| - |r|..]
    && sep !in r
    && (|r| == |s| || s[|s| - |r| - 1] == sep)
  }

  /** `split(sep).pop()`: the last piece, which is the text after the last
      separator (all of `s` when there is none). */
  function LastPiece(s: string, sep: char): (r: string)
    ensures LongestSuffixWithout(s, r, sep)
  {
    var pieces := Split(s, sep);
    var r := pieces[|pieces| - 1];
    if |pieces| > 1 then
      JoinLast(pieces, sep);
      var prefix := Join(pieces[..|pieces| - 1], sep);
      assert s == prefix + [sep] + r;
      assert s[|s| - |r|..] == r;
      assert s[|s| - |r| - 1] == sep;
      r
    else
      r
  }

  /** At most one suffix of `s` is the longest one without `sep`. */
  lemma LongestSuffixWithoutUnique(s: string, r1: string, r2: string, sep: char)
    requires LongestSuffixWithout(s, r1, sep) && LongestSuffixWithout(s, r2, sep)
    ensures r1 == r2
  {
  }

  /** The file extension as `createMediaPlayer` computes it: the text after
      the last dot (the whole path when there is none), lower-cased. */
  function Extension(path: string): (e: string)
    ensures |e| <= |path|
    ensures LongestSuffixWithout(path, path[|path| - |e|..], '.')
    ensures e == Lower(path[|path| - |e|..])
  {
    Lower(LastPiece(path, '.'))
  }

  /**
   The extension is the lower-cased text after the last `.`: exactly when
   `e` is the longest dot-free suffix of the path is the extension `Lower(e)`.
   */
  lemma ExtensionIsTextAfterLastDot(path: string, e: string)
    ensures LongestSuffixWithout(path, e, '.') ==> Extension(path) == Lower(e)
    ensures LongestSuffixWithout(path, LastPiece(path, '.'), '.')
  {
    if LongestSuffixWithout(path, e, '.') {
      LongestSuffixWithoutUnique(path, e, LastPiece(path, '.'), '.');
    }
  }

  /** A path without a dot is its own (lower-cased) extension. */
  lemma ExtensionWithoutDot(path: string)
    requires '.' !in path
    ensures Extension(path) == Lower(path)
  {
    assert path[|path| - |path|..] == path;
    ExtensionIsTextAfterLastDot(path, path);
  }

  /** A trailing dot gives the empty extension. */
  lemma ExtensionAfterTrailingDot(path: string)
    requires |path| > 0 && path[|path| - 1] == '.'
    ensures Extension(path) == ""
  {
    ExtensionIsTextAfterLastDot(path, "");
  }

  /** Dots in directory names do not matter: only the last one counts. */
  lemma ExtensionIgnoresEarlierDots(dir: string, name: string)
    requires '.' !in name
    ensures Extension(dir + "." + name) == Lower(name)
  {
    var path := dir + "." + name;
    assert path[|path| - |name|..] == name;
    assert path[|path| - |name| - 1] == '.';
    ExtensionIsTextAfterLastDot(path, name);
  }

  /** Lower-casing the path first does not change the extension. */
  lemma ExtensionOfLower(path: string)
    ensures Extension(Lower(path)) == Extension(path)
  {
    var r := LastPiece(path, '.');
    var lp, lr := Lower(path), Lower(r);
    assert LongestSuffixWithout(lp, lr, '.') by {
      LowerPreservesLongestSuffix(path, r, '.');
    }
    ExtensionIsTextAfterLastDot(lp, lr);
    LowerIdempotent(r);
  }

  /** Lower-casing keeps a separator that is not a letter where it was, so it keeps the suffix after the last one. */
  lemma LowerPreservesLongestSuffix(s: string, r: string, sep: char)
    requires !('A' <= sep <= 'Z') && !('a' <= sep <= 'z')
    ensures r == LastPiece(s, sep) ==> LongestSuffixWithout(Lower(s), Lower(r), sep)
  {
    if r == LastPiece(s, sep) {
      var k := |s| - |r|;
      LowerSuffix(s, k);
      var lr := Lower(r);
      forall i | 0 <= i < |r|
        ensures lr[i] != sep
      {
        LowerCharKeepsNonLetters(r[i], sep);
      }
      if k > 0 {
        assert Lower(s)[k - 1] == LowerChar(s[k - 1]);
      }
    }
  }

  datatype Kind = Video | Audio

  const VideoExtensions: seq<string> := ["mp4", "mov", "webm"]
  const AudioExtensions: seq<string> := ["mp3", "wav", "ogg"]

  /** The two tables, checked video first. */
  function Classify(ext: string): (k: Option<Kind>)
    ensures k == Some(Video) <==> ext in VideoExtensions
    ensures k == Some(Audio) <==> ext in AudioExtensions
    ensures k == None <==> ext !in VideoExtensions && ext !in AudioExtensions
  {
    if ext in VideoExtensions then Some(Video)
    else if ext in AudioExtensions then Some(Audio)
    else None
  }

  /** `mediaElement.tagName.toLowerCase()` for the created element. */
  function TagName(k: Kind): string {
    match k
    case Video => "video"
    case Audio => "audio"
  }

  /** The one element attached to the media region: its kind, the `controls`
      flag, and its single `<source>` child's `src` and `type`. */
  datatype Player = Player(kind: Kind, controls: bool, src: string, sourceType: string)

  /** What `createMediaPlayer` leaves in the media region. */
  datatype MediaView =
    | Playing(player: Player)
    | Unsupported(ext: string)

  function CreateMediaPlayer(path: string): (v: MediaView)
    ensures v.Playing? <==> Extension(path) in VideoExtensions || Extension(path) in AudioExtensions
    ensures v.Playing? ==> (v.player.kind == Video <==> Extension(path) in VideoExtensions)
    ensures v.Playing? ==> v.player.controls && v.player.src == path
    ensures v.Playing? ==> v.player.sourceType == TagName(v.player.kind) + "/" + Extension(path)
    ensures v.Unsupported? ==> v.ext == Extension(path)
  {
    var ext := Extension(path);
    match Classify(ext)
    case Some(k) => Playing(Player(k, true, path, TagName(k) + "/" + ext))
    case None => Unsupported(ext)
  }

  /** Classification ignores case: two paths that agree after lower-casing
      get the same player kind, source type, or unsupported message. */
  lemma CreateMediaPlayerIgnoresCase(p: string, q: string)
    requires Lower(p) == Lower(q)
    ensures CreateMediaPlayer(p).Playing? <==> CreateMediaPlayer(q).Playing?
    ensures CreateMediaPlayer(p).Playing? ==>
              CreateMediaPlayer(p).player.kind == CreateMediaPlayer(q).player.kind
              && CreateMediaPlayer(p).player.sourceType == CreateMediaPlayer(q).player.sourceType
    ensures CreateMediaPlayer(p).Unsupported? ==> CreateMediaPlayer(p) == CreateMediaPlayer(q)
  {
    ExtensionOfLower(p);
    ExtensionOfLower(q);
  }

  /** Only six source types can ever be produced. */
  lemma SourceTypesAreFixed(path: string)
    ensures CreateMediaPlayer(path).Playing? ==>
              CreateMediaPlayer(path).player.sourceType in SourceTypes
  {
    var v := CreateMediaPlayer(path);
    if v.Playing? {
      SourceTypeInTable(v.player.kind, Extension(path));
    }
  }

  const SourceTypes: seq<string> :=
    ["video/mp4", "video/mov", "video/webm", "audio/mp3", "audio/wav", "audio/ogg"]

  lemma SourceTypeInTable(k: Kind, e: string)
    requires k == Video ==> e in VideoExtensions
    requires k == Audio ==> e in AudioExtensions
    ensures TagName(k) + "/" + e in SourceTypes
  {
    if e == "mp4" {
      assert TagName(k) + "/" + e == SourceTypes[0];
    } else if e == "mov" {
      assert TagName(k) + "/" + e == SourceTypes[1];
    } else if e == "webm" {
      assert TagName(k) + "/" + e == SourceTypes[2];
    } else if e == "mp3" {
      assert TagName(k) + "/" + e == SourceTypes[3];
    } else if e == "wav" {
      assert TagName(k) + "/" + e == SourceTypes[4];
    } else {
      assert TagName(k) + "/" + e == SourceTypes[5];
    }
  }

  /** A path whose extension is in a table gets that table's player. */
  lemma PlaysByExtension(path: string, e: string, k: Kind)
    requires Extension(path) == e
    requires k == Video ==> e in VideoExtensions
    requires k == Audio ==> e in AudioExtensions && e !in VideoExtensions
    ensures CreateMediaPlayer(path) == Playing(Player(k, true, path, TagName(k) + "/" + e))
  {
  }

  /** A path with no extension after its last dot is never playable. */
  lemma TrailingDotUnsupported(path: string)
    requires |path| > 0 && path[|path| - 1] == '.'
    ensures CreateMediaPlayer(path) == Unsupported("")
  {
    ExtensionAfterTrailingDot(path);
  }

  /** Any path ending in `.mp4`, whatever dots its directories hold, plays as video. */
  lemma Mp4IsVideo(dir: string)
    ensures CreateMediaPlayer(dir + ".mp4") == Playing(Player(Video, true, dir + ".mp4", "video/mp4"))
  {
    var path, e := dir + ".mp4", "mp4";
    assert path == dir + "." + e;
    ExtensionIgnoresEarlierDots(dir, e);
    assert Lower(e) == e;
    PlaysByExtension(path, e, Video);
  }

  /** Any path ending in `.MP3` plays as audio: the upper-case extension is lower-cased. */
  lemma UpperMp3IsAudio(dir: string)
    ensures CreateMediaPlayer(dir + ".MP3") == Playing(Player(Audio, true, dir + ".MP3", "audio/mp3"))
  {
    var path, e := dir + ".MP3", "MP3";
    assert path == dir + "." + e;
    ExtensionIgnoresEarlierDots(dir, e);
    assert Lower(e) == "mp3";
    PlaysByExtension(path, "mp3", Audio);
  }

  /** Any path ending in `.xyz` is refused with its extension in the message. */
  lemma XyzIsUnsupported(dir: string)
    ensures CreateMediaPlayer(dir + ".xyz") == Unsupported("xyz")
  {
    var path, e := dir + ".xyz", "xyz";
    assert path == dir + "." + e;
    ExtensionIgnoresEarlierDots(dir, e);
    assert Lower(e) == e;
  }

  /** When the last dot sits in a directory name, everything after it is taken
      as the extension, and the path is refused. */
  lemma DotInDirectoryOnly(dir: string, file: string)
    requires '.' !in file
    ensures CreateMediaPlayer(dir + ".d/" + file) == Unsupported(Lower("d/" + file))
  {
    assert dir + ".d/" + file == dir + "." + ("d/" + file);
    ExtensionIgnoresEarlierDots(dir, "d/" + file);
    var e := Lower("d/" + file);
    assert e[1] == '/';
    SlashNotInTables(e);
  }

  /** No extension in the tables has a `/` in it. */
  lemma SlashNotInTables(e: string)
    requires |e| >= 2 && e[1] == '/'
    ensures e !in VideoExtensions && e !in AudioExtensions
  {
    forall x | x in VideoExtensions + AudioExtensions
      ensures e != x
    {
      if |x| >= 2 { assert x[1] != '/'; }
    }
  }
}
