/** The project video list: each bundled `.mp4` file becomes a video with a
    one-based id, a title taken from its file name and the module's URL. */
module ProjectVideo {
  import opened Carousel

  /** What the bundler yields for one file: its default export, the URL. */
  datatype Module = Module(defaultExport: string)

  datatype Video = Video(id: int, title: string, src: string)

  const Extension := ".mp4"

  /** `path.split("/").pop()`: the text after the last `/`, or the whole
      path when it has none. */
  function LastSegment(path: string): (r: string)
    ensures forall i :: 0 <= i < |r| ==> r[i] != '/'
    ensures |r| <= |path| && r == path[|path| - |r|..]
    ensures |r| < |path| ==> path[|path| - |r| - 1] == '/'
    decreases |path|
  {
    if path == [] then []
    else if path[|path| - 1] == '/' then []
    else LastSegment(path[..|path| - 1]) + [path[|path| - 1]]
  }

  /** `pat` occurs in `s` starting at `i`. */
  predicate OccursAt(s: string, pat: string, i: int) {
    0 <= i && i + |pat| <= |s| && s[i..i + |pat|] == pat
  }

  /** `s.indexOf(pat, k)`: the first occurrence from `k` on. */
  function IndexOfFrom(s: string, pat: string, k: nat): (r: Option<nat>)
    requires k <= |s|
    ensures r.Some? ==> k <= r.value && OccursAt(s, pat, r.value)
    ensures r.Some? ==> forall j :: k <= j < r.value ==> !OccursAt(s, pat, j)
    ensures r.None? ==> forall j :: k <= j ==> !OccursAt(s, pat, j)
    decreases |s| - k
  {
    if OccursAt(s, pat, k) then Some(k)
    else if k == |s| then None
    else IndexOfFrom(s, pat, k + 1)
  }

  /** `s.replace(pat, rep)` with a string pattern: only the first occurrence
      is replaced, and `s` is returned unchanged when there is none. */
  function ReplaceFirst(s: string, pat: string, rep: string): (r: string)
    ensures |r| == if IndexOfFrom(s, pat, 0).Some? then |s| - |pat| + |rep| else |s|
    ensures forall c :: c in r ==> c in s || c in rep
  {
    match IndexOfFrom(s, pat, 0)
    case None => s
    case Some(i) => s[..i] + rep + s[i + |pat|..]
  }

  /** A video's title: the file name with its first `.mp4` removed. */
  function Title(path: string): (r: string)
    ensures '/' !in r
    ensures |r| <= |LastSegment(path)|
  {
    ReplaceFirst(LastSegment(path), Extension, "")
  }

  /** `videos`: one entry per globbed file, in enumeration order. */
  function Videos(entries: seq<(string, Module)>): (r: seq<Video>)
    ensures |r| == |entries|
  {
    seq(|entries|, i requires 0 <= i < |entries| =>
      Video(i + 1, Title(entries[i].0), entries[i].1.defaultExport))
  }

  /** Removing the first occurrence of a pattern removes exactly that
      occurrence, and so adds no character. */
  lemma RemoveFirstOccurrence(s: string, pat: string, c: char)
    ensures (forall j :: !OccursAt(s, pat, j)) ==> ReplaceFirst(s, pat, "") == s
    ensures forall i :: OccursAt(s, pat, i) && (forall j :: 0 <= j < i ==> !OccursAt(s, pat, j)) ==>
      ReplaceFirst(s, pat, "") == s[..i] + s[i + |pat|..]
    ensures c !in s ==> c !in ReplaceFirst(s, pat, "")
  {
    var r := ReplaceFirst(s, pat, "");
    match IndexOfFrom(s, pat, 0)
    case None =>
    case Some(i) =>
      assert r == s[..i] + s[i + |pat|..];
      forall i' | OccursAt(s, pat, i') && (forall j :: 0 <= j < i' ==> !OccursAt(s, pat, j))
        ensures i' == i
      {
      }
  }

  /** Ids are the positions counted from one, so distinct and ascending;
      each `src` is the module's default export unchanged; no title
      contains `/`. */
  lemma VideosSpec(entries: seq<(string, Module)>)
    ensures var r := Videos(entries);
      && (forall i :: 0 <= i < |r| ==> r[i].id == i + 1 && r[i].src == entries[i].1.defaultExport)
      && (forall i, j :: 0 <= i < j < |r| ==> r[i].id < r[j].id)
      && (forall i :: 0 <= i < |r| ==> '/' !in r[i].title)
  {
    var r := Videos(entries);
    forall i | 0 <= i < |r|
      ensures '/' !in r[i].title
    {
      RemoveFirstOccurrence(LastSegment(entries[i].0), Extension, '/');
    }
  }

  /** The last segment of a path ending in `/` and a segment without `/`
      is that segment. */
  lemma {:induction false} LastSegmentAfterSlash(dir: string, name: string)
    requires '/' !in name
    ensures LastSegment(dir + "/" + name) == name
    decreases |name|
  {
    var p := dir + "/" + name;
    if name == [] {
      assert p[|p| - 1] == '/';
    } else {
      var q := name[..|name| - 1];
      assert p[..|p| - 1] == dir + "/" + q;
      assert p[|p| - 1] == name[|name| - 1];
      LastSegmentAfterSlash(dir, q);
      assert q + [name[|name| - 1]] == name;
    }
  }

  /** In `name.mp4`, where `name` has no `.mp4` of its own, the first
      occurrence of `.mp4` is the extension: an occurrence starting inside
      the name would have to match the extension's leading '.' against one
      of 'm', 'p' or '4'. */
  lemma ExtensionIsFirstOccurrence(name: string)
    requires forall j :: !OccursAt(name, Extension, j)
    ensures OccursAt(name + Extension, Extension, |name|)
    ensures forall j :: 0 <= j < |name| ==> !OccursAt(name + Extension, Extension, j)
  {
    var file := name + Extension;
    var n := |name|;
    assert file[n..n + 4] == Extension;
    forall j | 0 <= j < n
      ensures !OccursAt(file, Extension, j)
    {
      if j + 4 <= n {
        assert file[j..j + 4] == name[j..j + 4];
        assert !OccursAt(name, Extension, j);
      } else {
        assert file[j..j + 4][n - j] == file[n] == '.';
        assert Extension[n - j] != '.';
      }
    }
  }

  /** For a file `name.mp4` in any directory, where the name has no `/` and
      no `.mp4` of its own, the title is the name. */
  lemma TitleOfFile(dir: string, name: string)
    requires '/' !in name
    requires forall j :: !OccursAt(name, Extension, j)
    ensures Title(dir + "/" + name + Extension) == name
  {
    var file := name + Extension;
    assert dir + "/" + name + Extension == dir + "/" + file;
    LastSegmentAfterSlash(dir, file);
    ExtensionIsFirstOccurrence(name);
    RemoveFirstOccurrence(file, Extension, '/');
    assert file[..|name|] + file[|name| + 4..] == name;
  }

  lemma RemoveFirstExample()
    ensures ReplaceFirst("a.mp4b.mp4", Extension, "") == "ab.mp4"
  {
    var seg := "a.mp4b.mp4";
    assert OccursAt(seg, Extension, 1) by {
      assert seg[1..5] == Extension;
    }
    assert !OccursAt(seg, Extension, 0) by {
      assert seg[0..4][0] == 'a';
    }
    assert IndexOfFrom(seg, Extension, 0) == Some(1);
    assert seg[..1] + "" + seg[5..] == "ab.mp4";
  }

  /** The removed `.mp4` is the first one, not necessarily the extension. */
  lemma TitleRemovesFirstOccurrence(dir: string)
    ensures Title(dir + "/a.mp4b.mp4") == "ab.mp4"
  {
    assert dir + "/a.mp4b.mp4" == dir + "/" + "a.mp4b.mp4";
    LastSegmentAfterSlash(dir, "a.mp4b.mp4");
    RemoveFirstExample();
  }
}
