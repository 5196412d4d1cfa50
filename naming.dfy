/**
 * File names built by `download_video`: the sanitized output file name
 * `<title>_<part>.mp4` placed in the save directory, and the per-track
 * temporary names `<bvid>_<cid>_video.m4s` / `<bvid>_<cid>_audio.m4s`.
 */
module Naming {
  import opened Text

  /** Members of the regex class `[\\/:*?"<>|]`, which `re.sub` deletes. */
  predicate IsIllegal(c: char) {
    c == '\\' || c == '/' || c == ':' || c == '*' || c == '?' || c == '"' || c == '<' || c == '>' || c == '|'
  }

  /** No character of `s` is illegal. */
  ghost predicate Legal(s: string) {
    forall k :: 0 <= k < |s| ==> !IsIllegal(s[k])
  }

  lemma LegalAppend(a: string, b: string)
    requires Legal(a) && Legal(b)
    ensures Legal(a + b)
  {
    forall k | 0 <= k < |a + b| ensures !IsIllegal((a + b)[k]) {
      if k < |a| { assert (a + b)[k] == a[k]; } else { assert (a + b)[k] == b[k - |a|]; }
    }
  }

  /** `re.sub(r'[\\/:*?"<>|]', "", s)`: `s` with every illegal character deleted. */
  function RemoveIllegal(s: string): (r: string)
    ensures |r| <= |s| && Legal(r)
  {
    if s == [] then []
    else (if IsIllegal(s[0]) then [] else [s[0]]) + RemoveIllegal(s[1..])
  }

  /** A character survives the deletion exactly when it occurs in `s` and is legal. */
  lemma {:induction false} RemoveIllegalChars(s: string)
    ensures forall c :: c in RemoveIllegal(s) <==> c in s && !IsIllegal(c)
  {
    if s != [] {
      RemoveIllegalChars(s[1..]);
      assert s == [s[0]] + s[1..];
    }
  }

  /** The deletion works character by character, so it distributes over concatenation. */
  lemma {:induction false} RemoveIllegalAppend(a: string, b: string)
    ensures RemoveIllegal(a + b) == RemoveIllegal(a) + RemoveIllegal(b)
  {
    if a == [] {
      assert a + b == b;
    } else {
      assert (a + b)[1..] == a[1..] + b;
      RemoveIllegalAppend(a[1..], b);
    }
  }

  /** Every legal character keeps its number of occurrences: only illegal ones are lost. */
  lemma {:induction false} RemoveIllegalCounts(s: string, c: char)
    requires !IsIllegal(c)
    ensures multiset(RemoveIllegal(s))[c] == multiset(s)[c]
  {
    if s != [] {
      RemoveIllegalCounts(s[1..], c);
      assert s == [s[0]] + s[1..];
    }
  }

  /** A name that is already legal is left alone. */
  lemma {:induction false} RemoveIllegalLegal(s: string)
    requires forall k :: 0 <= k < |s| ==> !IsIllegal(s[k])
    ensures RemoveIllegal(s) == s
  {
    if s != [] {
      RemoveIllegalLegal(s[1..]);
    }
  }

  lemma StripLegal(s: string)
    requires Legal(s)
    ensures Legal(Strip(s))
  {
    var r, i := Strip(s), LeadingSpaces(s);
    assert forall k :: 0 <= k < |r| ==> r[k] == s[i + k];
  }

  /** Line 293's `[:100]` bound on the title. */
  const MaxTitleLength: nat := 100

  /** The title as line 293 cleans it: illegal characters deleted, stripped, cut to 100. */
  function SanitizeTitle(title: string): string {
    var cleaned := Strip(RemoveIllegal(title));
    if |cleaned| <= MaxTitleLength then cleaned else cleaned[..MaxTitleLength]
  }

  /**
   * The cleaned title holds at most 100 characters, none of them illegal and
   * all of them from the raw title; it is the start of the stripped, cleaned
   * title, and all of it unless that was longer than 100.
   */
  lemma SanitizeTitleSpec(title: string)
    ensures |SanitizeTitle(title)| <= MaxTitleLength && Legal(SanitizeTitle(title))
    ensures forall c :: c in SanitizeTitle(title) ==> c in title
    ensures |SanitizeTitle(title)| <= |Strip(RemoveIllegal(title))|
    ensures SanitizeTitle(title) == Strip(RemoveIllegal(title))[..|SanitizeTitle(title)|]
    ensures |SanitizeTitle(title)| == MaxTitleLength || SanitizeTitle(title) == Strip(RemoveIllegal(title))
  {
    var cleaned, r := Strip(RemoveIllegal(title)), SanitizeTitle(title);
    RemoveIllegalChars(title);
    StripChars(RemoveIllegal(title));
    StripLegal(RemoveIllegal(title));
    if |cleaned| > MaxTitleLength {
      assert forall c :: c in r ==> c in cleaned;
    }
  }

  /** The page label as line 299 cleans it: illegal characters deleted and stripped, not cut. */
  function SanitizePart(part: string): string {
    Strip(RemoveIllegal(part))
  }

  /** The cleaned page label is trimmed, legal, and made of the raw label's characters. */
  lemma SanitizePartSpec(part: string)
    ensures Trimmed(SanitizePart(part)) && Legal(SanitizePart(part))
    ensures forall c :: c in SanitizePart(part) ==> c in part
  {
    RemoveIllegalChars(part);
    StripChars(RemoveIllegal(part));
    StripLegal(RemoveIllegal(part));
  }

  /** `f"{title}_{part}.mp4"` of line 299, from the already sanitized title. */
  function OutputName(title: string, part: string): string {
    SanitizeTitle(title) + "_" + SanitizePart(part) + ".mp4"
  }

  /**
   * The output name is legal on every file system the source targets: none of
   * `\ / : * ? " < > |` survives, it ends in `.mp4`, and its two halves are the
   * sanitized title and page label around one `_`.
   */
  lemma OutputNameLegal(title: string, part: string)
    ensures Legal(OutputName(title, part))
    ensures OutputName(title, part)[|OutputName(title, part)| - 4..] == ".mp4"
    ensures OutputName(title, part)[..|SanitizeTitle(title)| + 1] == SanitizeTitle(title) + "_"
  {
    SanitizeTitleSpec(title);
    SanitizePartSpec(part);
    JoinedNameLegal(SanitizeTitle(title), SanitizePart(part));
  }

  lemma JoinedNameLegal(t: string, p: string)
    requires Legal(t) && Legal(p)
    ensures Legal(t + "_" + p + ".mp4")
    ensures (t + "_" + p + ".mp4")[|t + "_" + p + ".mp4"| - 4..] == ".mp4"
    ensures (t + "_" + p + ".mp4")[..|t| + 1] == t + "_"
  {
    var head := t + "_" + p;
    assert Legal("_") && Legal(".mp4");
    LegalAppend(t, "_");
    LegalAppend(t + "_", p);
    LegalAppend(head, ".mp4");
    assert (head + ".mp4")[|head|..] == ".mp4";
    assert (head + ".mp4")[..|t| + 1] == t + "_";
  }

  /** A path as its sequence of components. */
  type Path = seq<string>

  /** `self.config.save_path / output_name` of line 300. */
  function OutputPath(savePath: Path, title: string, part: string): Path {
    savePath + [OutputName(title, part)]
  }

  /**
   * The merged file lands directly in the save directory: the path is the
   * save path plus one component, and that component holds no separator, so
   * no title or page label can move the file elsewhere.
   */
  lemma OutputPathSpec(savePath: Path, title: string, part: string)
    ensures var p := OutputPath(savePath, title, part);
            |p| == |savePath| + 1 && p[..|savePath|] == savePath
            && '/' !in p[|savePath|] && '\\' !in p[|savePath|]
  {
    var n := OutputName(title, part);
    OutputNameLegal(title, part);
    assert forall k :: 0 <= k < |n| ==> n[k] != '/' && n[k] != '\\';
    assert OutputPath(savePath, title, part)[|savePath|] == n;
  }

  /** Which track a temporary file holds. */
  datatype Track = VideoTrack | AudioTrack

  function TrackSuffix(t: Track): (s: string)
    ensures |s| == 10
  {
    match t
    case VideoTrack => "_video.m4s"
    case AudioTrack => "_audio.m4s"
  }

  /** `f"{bvid}_{cid}_video.m4s"` / `f"{bvid}_{cid}_audio.m4s"` of lines 308-309. */
  function TempName(bvid: string, cid: int, t: Track): string {
    bvid + "_" + IntToString(cid) + TrackSuffix(t)
  }

  /**
   * Temporary names never collide: distinct `(bvid, cid, track)` give distinct
   * names, because the decimal `cid` contains no `_` and so the last `_`
   * before the suffix ends the `bvid`.
   */
  lemma TempNameInjective(b1: string, c1: int, t1: Track, b2: string, c2: int, t2: Track)
    requires TempName(b1, c1, t1) == TempName(b2, c2, t2)
    ensures b1 == b2 && c1 == c2 && t1 == t2
  {
    var n := TempName(b1, c1, t1);
    var d1, d2 := IntToString(c1), IntToString(c2);
    var q := n[..|n| - 10];
    assert n == (b1 + "_" + d1) + TrackSuffix(t1) == (b2 + "_" + d2) + TrackSuffix(t2);
    assert TrackSuffix(t1) == n[|n| - 10..] == TrackSuffix(t2);
    assert TrackSuffix(VideoTrack)[1] != TrackSuffix(AudioTrack)[1];
    assert q == b1 + "_" + d1 == b2 + "_" + d2;
    LastUnderscore(b1, d1);
    LastUnderscore(b2, d2);
    assert |b1| == |b2|;
    assert b1 == q[..|b1|] == b2;
    assert d1 == q[|b1| + 1..] == d2;
    IntToStringInjective(c1, c2);
  }

  /** In `b + "_" + str(cid)` the last `_` is the one after `b`. */
  lemma LastUnderscore(b: string, d: string)
    requires forall k :: 0 <= k < |d| ==> IsDigit(d[k]) || d[k] == '-'
    ensures (b + "_" + d)[|b|] == '_'
    ensures forall k :: |b| < k < |b| + 1 + |d| ==> (b + "_" + d)[k] != '_'
  {
    var q := b + "_" + d;
    assert forall k :: |b| < k < |q| ==> q[k] == d[k - |b| - 1];
  }
}
