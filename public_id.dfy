/** `getPublicIdFromUrl` of the video controller: the media host's public id
    of an uploaded file is the last path segment of its URL, cut before the
    first dot. */
module PublicId {
  import opened Text

  /** `url.split("/")`, last piece, `.split(".")`, first piece. */
  function GetPublicIdFromUrl(url: string): (publicId: string)
    ensures '.' !in publicId
  {
    var parts := Split(url, '/');
    var fileWithExtension := parts[|parts| - 1];
    Split(fileWithExtension, '.')[0]
  }

  /** Where the last path segment of `url` starts: just after its last `/`,
      or at 0 when there is none. */
  function SegmentStart(url: string): (k: nat)
    ensures k <= |url|
    ensures k == 0 || url[k - 1] == '/'
    ensures '/' !in url[k..]
    decreases |url|
  {
    if url == [] then 0
    else if url[|url| - 1] == '/' then |url|
    else
      var k := SegmentStart(url[..|url| - 1]);
      assert url[k..] == url[..|url| - 1][k..] + [url[|url| - 1]];
      k
  }

  /** Any URL laid out as a directory part ending in `/` (or empty), a name
      free of `/` and `.`, and an extension part starting with `.` (or empty)
      and free of `/`, has that name as its public id. */
  lemma {:induction false} PublicIdOfLayout(dir: string, name: string, ext: string)
    requires dir == [] || dir[|dir| - 1] == '/'
    requires '/' !in name && '.' !in name && '/' !in ext
    requires ext == [] || ext[0] == '.'
    ensures GetPublicIdFromUrl(dir + name + ext) == name
  {
    var file := name + ext;
    assert '/' !in file;
    assert dir + name + ext == dir + file;
    LastSegment(dir, file);
    FirstPiece(name, ext);
  }

  /** The last `/`-piece of a directory part followed by a file name is the
      file name. */
  lemma {:induction false} LastSegment(dir: string, file: string)
    requires dir == [] || dir[|dir| - 1] == '/'
    requires '/' !in file
    ensures var parts := Split(dir + file, '/'); parts[|parts| - 1] == file
  {
    if dir == [] {
      assert dir + file == file;
    } else {
      var d := dir[..|dir| - 1];
      assert dir + file == d + ['/'] + file;
      SplitAtSeparator(d, file, '/');
    }
  }

  /** The first `.`-piece of a name followed by an extension is the name. */
  lemma {:induction false} FirstPiece(name: string, ext: string)
    requires '.' !in name
    requires ext == [] || ext[0] == '.'
    ensures Split(name + ext, '.')[0] == name
  {
    if ext == [] {
      assert name + ext == name;
    } else {
      assert name + ext == name + ['.'] + ext[1..];
      SplitAtSeparator(name, ext[1..], '.');
    }
  }

  /** The public id is the stretch of `url` that starts right after the last
      `/` and runs up to the first `.` after it, or to the end. */
  lemma {:induction false} PublicIdLocated(url: string)
    ensures var k := SegmentStart(url);
            var r := GetPublicIdFromUrl(url);
            k + |r| <= |url| && url[k..k + |r|] == r &&
            (k + |r| == |url| || url[k + |r|] == '.')
  {
    var k := SegmentStart(url);
    var dir, seg := url[..k], url[k..];
    var name, ext := NameAndExtension(seg);
    assert GetPublicIdFromUrl(url) == name by {
      assert url == dir + name + ext;
      PublicIdOfLayout(dir, name, ext);
    }
    assert k + |name| <= |url| && url[k..k + |name|] == name by {
      assert url[k..k + |name|] == seg[..|name|];
    }
    assert k + |name| == |url| || url[k + |name|] == '.' by {
      if ext != [] {
        assert url[k + |name|] == seg[|name|] == ext[0];
      }
    }
  }

  /** A segment free of `/` is its part before the first `.` followed by
      the rest, which is empty or starts with that `.`. */
  lemma {:induction false} NameAndExtension(seg: string) returns (name: string, ext: string)
    requires '/' !in seg
    ensures seg == name + ext
    ensures '/' !in name && '.' !in name && '/' !in ext
    ensures ext == [] || ext[0] == '.'
  {
    var pieces := Split(seg, '.');
    name := pieces[0];
    JoinSplit(seg, '.');
    if |pieces| == 1 {
      ext := [];
      assert seg == name;
    } else {
      ext := ['.'] + Join(pieces[1..], '.');
      assert seg == name + ext;
    }
  }

  /** The public id contains neither separator. */
  lemma {:induction false} PublicIdHasNoSeparators(url: string)
    ensures '/' !in GetPublicIdFromUrl(url)
    ensures '.' !in GetPublicIdFromUrl(url)
  {
    var k, r := SegmentStart(url), GetPublicIdFromUrl(url);
    PublicIdLocated(url);
    forall i | 0 <= i < |r| ensures r[i] != '/' {
      assert r[i] == url[k..][i];
    }
  }

  /** Taking the public id of a public id changes nothing. */
  lemma {:induction false} PublicIdIdempotent(url: string)
    ensures GetPublicIdFromUrl(GetPublicIdFromUrl(url)) == GetPublicIdFromUrl(url)
  {
    var r := GetPublicIdFromUrl(url);
    PublicIdHasNoSeparators(url);
    assert [] + r + [] == r;
    PublicIdOfLayout([], r, []);
  }

  /** A media-host video URL of the shape the upload handler stores. */
  lemma {:induction false} PublicIdOfVideoUrl()
    ensures GetPublicIdFromUrl("https://res.cloudinary.com/demo/video/upload/v1/videos/clip01.mp4") == "clip01"
  {
    var dir := "https://res.cloudinary.com/demo/video/upload/v1/videos/";
    assert dir + "clip01" + ".mp4" == "https://res.cloudinary.com/demo/video/upload/v1/videos/clip01.mp4";
    PublicIdOfLayout(dir, "clip01", ".mp4");
  }
}
