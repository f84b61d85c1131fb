/**
 * `raw/fetch_images.py`: for every parsed digest not yet done, find one
 * upload image per resource of the digest page, name it after its URL,
 * download it into `assets/images/<digest>/` and record the local path; then
 * give every record of `data.json` its `Image` field.
 *
 * The image download and the Pillow processing are a parameter
 * `downloaded(imageUrl, localPath)` saying whether the image was fetched,
 * decoded and saved; the digest page is given as its `<article>` segments.
 */
module FetchImages {
  import opened Wrappers
  import opened Text
  import opened Records
  import opened Article

  // ---------------------------------------------------------------- clean_filename

  /** Every character of `s` is a `\w` character. */
  predicate AllWord(s: string) {
    forall i | 0 <= i < |s| :: IsWordChar(s[i])
  }

  /** `os.path.basename`: everything after the last `/`. */
  function Basename(path: string): string {
    path[LastIndexOf(path, '/') + 1..]
  }

  /** `s` splits at position `k` into `W` + `x` + `H`, both non-empty runs of digits. */
  predicate SizeAt(s: string, k: int) {
    0 < k < |s| - 1 && s[k] == 'x' && AllDigits(s[..k]) && AllDigits(s[k + 1..])
  }

  /** `\d+x\d+`, a WordPress size such as `1024x420`. */
  predicate IsSize(s: string) {
    exists k | 0 < k < |s| - 1 :: SizeAt(s, k)
  }

  /**
   * `WP_SIZE_RE.sub("", f)` with `WP_SIZE_RE` = `-\d+x\d+(?=\.\w+$)`: the
   * lookahead pins the match to just before the last `.`, which must be
   * followed by word characters up to the end, and the match itself holds no
   * other `-`; so there is at most one match, starting at the last `-` before
   * that `.`.
   */
  function WpSizeStrip(f: string): string {
    var dot := LastIndexOf(f, '.');
    if dot < 0 || dot + 1 == |f| || !AllWord(f[dot + 1..]) then f
    else StripSizeBefore(f, dot)
  }

  /** Removes `-WxH` just before position `dot`, if it is there. */
  function StripSizeBefore(f: string, dot: nat): string
    requires dot < |f|
  {
    var dash := LastIndexOf(f[..dot], '-');
    if dash >= 0 && IsSize(f[dash + 1..dot]) then f[..dash] + f[dot..] else f
  }

  /**
   * `os.path.splitext` (POSIX): the extension starts at the last `.` of the
   * last path component, provided a character other than `.` comes before it
   * in that component.
   */
  function SplitExt(p: string): (r: (string, string))
    ensures r.0 + r.1 == p
    ensures r.1 == [] || r.1[0] == '.'
  {
    var slash := LastIndexOf(p, '/');
    var dot := LastIndexOf(p, '.');
    if dot > slash && exists k | slash + 1 <= k < dot :: p[k] != '.' then (p[..dot], p[dot..])
    else (p, [])
  }

  /** `clean_filename`: the image's file name without a size suffix, as a `.jpg`. */
  function CleanFilename(url: string): (r: string)
    ensures EndsWith(r, ".jpg")
  {
    var name := FileRoot(url);
    JpgSuffix(name);
    if name == [] then "image.jpg" else name + ".jpg"
  }

  lemma JpgSuffix(name: string)
    ensures EndsWith("image.jpg", ".jpg") && EndsWith(name + ".jpg", ".jpg")
  {
    var r := name + ".jpg";
    assert r[|r| - 4..] == ".jpg";
  }

  /** The file name of the URL's path without its size suffix and extension. */
  function FileRoot(url: string): string {
    SplitExt(WpSizeStrip(Basename(BeforeFirst(url, '?')))).0
  }

  lemma BeforeFirstAt(s: string, c: char, n: nat)
    requires n <= |s| && c !in s[..n] && (n == |s| || s[n] == c)
    ensures BeforeFirst(s, c) == s[..n]
  {
    assert forall k | 0 <= k < n :: s[k] == s[..n][k];
  }

  lemma LastIndexOfAt(s: string, c: char, i: nat)
    requires i < |s| && s[i] == c
    requires forall j | i < j < |s| :: s[j] != c
    ensures LastIndexOf(s, c) == i
  {
  }

  lemma LastIndexOfConcat(a: string, c: char, b: string)
    requires c !in b
    ensures LastIndexOf(a + [c] + b, c) == |a|
  {
    var s := a + [c] + b;
    assert s[|a|] == c;
    assert s[|a| + 1..] == b;
    LastIndexOfBefore(s, c, |a|);
  }

  lemma LastIndexOfBefore(s: string, c: char, i: nat)
    requires i < |s| && s[i] == c && c !in s[i + 1..]
    ensures LastIndexOf(s, c) == i
  {
    forall j | i < j < |s|
      ensures s[j] != c
    {
      assert s[j] == s[i + 1..][j - i - 1];
    }
    LastIndexOfAt(s, c, i);
  }

  lemma LastIndexOfAbsent(s: string, c: char)
    requires c !in s
    ensures LastIndexOf(s, c) == -1
  {
  }

  lemma WordHasNoPunctuation(s: string)
    requires AllWord(s)
    ensures '.' !in s && '/' !in s && '?' !in s && '-' !in s
  {
    forall i | 0 <= i < |s|
      ensures s[i] != '.' && s[i] != '/' && s[i] != '?' && s[i] != '-'
    {
      assert IsWordChar(s[i]);
    }
  }

  lemma DigitsHaveNoPunctuation(s: string)
    requires AllDigits(s)
    ensures '.' !in s && '/' !in s && '?' !in s && '-' !in s && 'x' !in s
  {
    forall i | 0 <= i < |s|
      ensures s[i] != '.' && s[i] != '/' && s[i] != '?' && s[i] != '-' && s[i] != 'x'
    {
      assert IsDigit(s[i]);
    }
  }

  /** A query string does not change the file name. */
  lemma CleanFilenameIgnoresQuery(path: string, query: string)
    requires '?' !in path
    ensures CleanFilename(path + "?" + query) == CleanFilename(path)
  {
    var s := path + "?" + query;
    assert s[..|path|] == path;
    BeforeFirstAt(s, '?', |path|);
    assert path[..|path|] == path;
    BeforeFirstAt(path, '?', |path|);
  }

  lemma WpSizeStripNonEmpty(f: string)
    requires f != []
    ensures WpSizeStrip(f) != []
  {
    var dot := LastIndexOf(f, '.');
    if dot >= 0 && dot + 1 < |f| && AllWord(f[dot + 1..]) {
      var dash := LastIndexOf(f[..dot], '-');
      assert |f[dot..]| > 0;
    }
  }

  lemma SplitExtRootNonEmpty(p: string)
    requires p != []
    ensures SplitExt(p).0 != []
  {
    var slash := LastIndexOf(p, '/');
    var dot := LastIndexOf(p, '.');
    if dot > slash && exists k | slash + 1 <= k < dot :: p[k] != '.' {
      var k :| slash + 1 <= k < dot && p[k] != '.';
      assert |p[..dot]| == dot > k;
    }
  }

  lemma RootEmptyIff(f: string)
    ensures f == [] <==> SplitExt(WpSizeStrip(f)).0 == []
  {
    if f != [] {
      WpSizeStripNonEmpty(f);
      SplitExtRootNonEmpty(WpSizeStrip(f));
    } else {
      LastIndexOfAbsent(f, '.');
      assert WpSizeStrip(f) == f;
      LastIndexOfAbsent(f, '/');
      assert SplitExt(f) == (f, []);
    }
  }

  /**
   * The fallback name `image` is taken exactly when the URL's path (before any
   * `?`) ends with `/` or is empty.
   */
  lemma CleanFilenameFallback(url: string)
    ensures Basename(BeforeFirst(url, '?')) == [] <==> FileRoot(url) == []
    ensures Basename(BeforeFirst(url, '?')) == [] ==> CleanFilename(url) == "image.jpg"
  {
    var name := Basename(BeforeFirst(url, '?'));
    RootEmptyIff(name);
    assert FileRoot(url) == SplitExt(WpSizeStrip(name)).0;
  }

  lemma WpSizeStripSuffix(stem: string, w: string, h: string, ext: string)
    requires w != [] && AllDigits(w) && h != [] && AllDigits(h)
    requires ext != [] && AllWord(ext)
    ensures WpSizeStrip(stem + "-" + w + "x" + h + "." + ext) == stem + "." + ext
  {
    var size := w + "x" + h;
    SizeOf(w, h);
    assert stem + "-" + w + "x" + h + "." + ext == stem + "-" + size + "." + ext;
    WpSizeStripAt(stem + "-" + size, ext);
    StripSizeAt(stem, size, ext);
  }

  /** Before a last `.` followed by word characters, only the size strip is left to do. */
  lemma WpSizeStripAt(s: string, ext: string)
    requires ext != [] && AllWord(ext)
    ensures WpSizeStrip(s + "." + ext) == StripSizeBefore(s + "." + ext, |s|)
  {
    WordHasNoPunctuation(ext);
    LastIndexOfConcat(s, '.', ext);
    var f := s + "." + ext;
    assert f[|s| + 1..] == ext;
  }

  lemma SizeOf(w: string, h: string)
    requires w != [] && AllDigits(w) && h != [] && AllDigits(h)
    ensures IsSize(w + "x" + h) && '-' !in w + "x" + h
  {
    DigitsHaveNoPunctuation(w);
    DigitsHaveNoPunctuation(h);
    var size := w + "x" + h;
    assert size[..|w|] == w && size[|w| + 1..] == h;
    assert SizeAt(size, |w|);
  }

  lemma StripSizeAt(stem: string, size: string, ext: string)
    requires IsSize(size) && '-' !in size
    ensures StripSizeBefore(stem + "-" + size + "." + ext, |stem + "-" + size|) == stem + "." + ext
  {
    var s := stem + "-" + size;
    var f := s + "." + ext;
    assert f[..|s|] == s;
    LastIndexOfConcat(stem, '-', size);
    assert f[|stem| + 1..|s|] == size;
    assert f[..|stem|] == stem;
    assert f[|s|..] == "." + ext;
  }

  lemma SplitExtAt(stem: string, ext: string, k: nat)
    requires '/' !in stem && k < |stem| && stem[k] != '.'
    requires AllWord(ext)
    ensures SplitExt(stem + "." + ext) == (stem, "." + ext)
  {
    WordHasNoPunctuation(ext);
    var p := stem + "." + ext;
    LastIndexOfConcat(stem, '.', ext);
    assert '/' !in p;
    LastIndexOfAbsent(p, '/');
    assert p[k] == stem[k];
    assert p[..|stem|] == stem;
    assert p[|stem|..] == "." + ext;
  }

  lemma BasenameAfter(dir: string, f: string)
    requires '/' !in f
    ensures Basename(dir + "/" + f) == f
  {
    LastIndexOfConcat(dir, '/', f);
    var p := dir + "/" + f;
    assert p[|dir| + 1..] == f;
  }

  /** A WordPress size suffix is removed: `dir/stem-WxH.ext` is saved as `stem.jpg`. */
  lemma WpSuffixRemoved(dir: string, stem: string, w: string, h: string, ext: string, k: nat)
    requires '?' !in dir && '?' !in stem && '/' !in stem
    requires k < |stem| && stem[k] != '.'
    requires w != [] && AllDigits(w) && h != [] && AllDigits(h)
    requires ext != [] && AllWord(ext)
    ensures CleanFilename(dir + "/" + stem + "-" + w + "x" + h + "." + ext) == stem + ".jpg"
  {
    DigitsHaveNoPunctuation(w);
    DigitsHaveNoPunctuation(h);
    WordHasNoPunctuation(ext);
    var f := stem + "-" + w + "x" + h + "." + ext;
    var url := dir + "/" + f;
    assert url == dir + "/" + stem + "-" + w + "x" + h + "." + ext;
    assert '?' !in f && '/' !in f;
    assert '?' !in url;
    assert url[..|url|] == url;
    BeforeFirstAt(url, '?', |url|);
    BasenameAfter(dir, f);
    WpSizeStripSuffix(stem, w, h, ext);
    SplitExtAt(stem, ext, k);
  }

  // ---------------------------------------------------------------- extract_image_map

  /** `image_map`: a dict from resource link to image URL, in insertion order. */
  type ImageMap = seq<(string, string)>

  function Keys(m: ImageMap): set<string> {
    set i | 0 <= i < |m| :: m[i].0
  }

  function Values(m: ImageMap): set<string> {
    set i | 0 <= i < |m| :: m[i].1
  }

  predicate DistinctKeys(m: ImageMap) {
    forall i, j | 0 <= i < j < |m| :: m[i].0 != m[j].0
  }

  predicate DistinctValues(m: ImageMap) {
    forall i, j | 0 <= i < j < |m| :: m[i].1 != m[j].1
  }

  /** `m` with the value of key `k` replaced by `v`. */
  function Replace(m: ImageMap, k: string, v: string): (r: ImageMap)
    requires DistinctKeys(m) && k in Keys(m)
    ensures (k, v) in r && DistinctKeys(r)
    ensures Keys(r) == Keys(m)
    ensures forall p | p in r && p.0 != k :: p in m
    ensures forall p | p in m && p.0 != k :: p in r
    ensures Values(r) <= Values(m) + {v}
    ensures DistinctValues(m) && v !in Values(m) ==> DistinctValues(r)
    ensures |r| == |m| && forall i | 0 <= i < |m| :: r[i].0 == m[i].0
  {
    var r := seq(|m|, i requires 0 <= i < |m| => if m[i].0 == k then (k, v) else m[i]);
    var i :| 0 <= i < |m| && m[i].0 == k;
    assert r[i] == (k, v);
    assert forall j | 0 <= j < |m| :: r[j].0 == m[j].0;
    assert Keys(r) == Keys(m);
    r
  }

  /** `m` with the new key `k` added last, bound to `v`. */
  function Append(m: ImageMap, k: string, v: string): (r: ImageMap)
    requires DistinctKeys(m) && k !in Keys(m)
    ensures DistinctKeys(r)
    ensures Keys(r) == Keys(m) + {k}
    ensures Values(r) == Values(m) + {v}
    ensures v !in Values(m) && DistinctValues(m) ==> DistinctValues(r)
  {
    var r := m + [(k, v)];
    assert r[|m|] == (k, v);
    assert forall i | 0 <= i < |m| :: r[i] == m[i];
    assert forall x | x in Keys(m) :: x in Keys(r) by {
      forall x | x in Keys(m) ensures x in Keys(r) {
        var i :| 0 <= i < |m| && m[i].0 == x;
        assert r[i].0 == x;
      }
    }
    assert forall x | x in Values(m) :: x in Values(r) by {
      forall x | x in Values(m) ensures x in Values(r) {
        var i :| 0 <= i < |m| && m[i].1 == x;
        assert r[i].1 == x;
      }
    }
    r
  }

  /** `m[k] = v`: a new key goes last, an existing key keeps its place and takes the new value. */
  function Put(m: ImageMap, k: string, v: string): (r: ImageMap)
    requires DistinctKeys(m)
    ensures (k, v) in r && DistinctKeys(r)
    ensures Keys(r) == Keys(m) + {k}
    ensures forall p | p in r && p.0 != k :: p in m
    ensures forall p | p in m && p.0 != k :: p in r
    ensures Values(r) <= Values(m) + {v}
    ensures DistinctValues(m) && v !in Values(m) ==> DistinctValues(r)
    ensures k !in Keys(m) ==> r == m + [(k, v)]
    ensures k in Keys(m) ==> |r| == |m| && forall i | 0 <= i < |m| :: r[i].0 == m[i].0
  {
    if k in Keys(m) then Replace(m, k, v) else Append(m, k, v)
  }

  /** The resource link of a segment as `extract_image_map` takes it; `None` for an empty one. */
  function ImageLink(seg: Segment): (r: Option<string>)
    ensures r.Some? ==> r.value != []
    ensures seg.h3Link.None? && r.Some? ==> Usable(r.value) && r.value in seg.blockLinks
    ensures seg.h3Link.None? ==> r == FirstUsable(seg.blockLinks)
    ensures seg.h3Link.Some? ==>
              r == (if Strip(seg.h3Link.value) == [] then None else Some(Strip(seg.h3Link.value)))
  {
    if seg.h3Link.Some? then
      var link := Strip(seg.h3Link.value);
      if link == [] then None else Some(link)
    else
      var r := FirstUsable(seg.blockLinks);
      assert r.Some? ==> |r.value| >= 4;
      r
  }

  /** The first image of `imgs[k..]` that is not claimed yet. */
  function FirstUnclaimedFrom(imgs: seq<string>, claimed: set<string>, k: nat): (r: Option<string>)
    requires k <= |imgs|
    ensures r.Some? ==> r.value !in claimed
    ensures r.Some? ==> exists i | k <= i < |imgs| :: imgs[i] == r.value
                          && forall j | k <= j < i :: imgs[j] in claimed
    ensures r.None? <==> forall i | k <= i < |imgs| :: imgs[i] in claimed
    decreases |imgs| - k
  {
    if k == |imgs| then None
    else if imgs[k] !in claimed then Some(imgs[k])
    else FirstUnclaimedFrom(imgs, claimed, k + 1)
  }

  function FirstUnclaimed(imgs: seq<string>, claimed: set<string>): Option<string> {
    FirstUnclaimedFrom(imgs, claimed, 0)
  }

  /** The zone before heading `i`: the previous segment's block, or the preamble. */
  function BeforeZone(a: Article, i: nat): seq<string>
    requires i < |a.segments|
  {
    if i == 0 then a.preamble else a.segments[i - 1].images
  }

  /** Python's truth value of `found_img`: neither `None` nor empty. */
  predicate Truthy(found: Option<string>) {
    found.Some? && found.value != []
  }

  /** The image chosen for heading `i`: the first unclaimed one after it, else before it. */
  function Found(a: Article, i: nat, claimed: set<string>): Option<string>
    requires i < |a.segments|
  {
    var after := FirstUnclaimed(a.segments[i].images, claimed);
    if Truthy(after) then after else FirstUnclaimed(BeforeZone(a, i), claimed)
  }

  /** `claimed_images` and `image_map` as the loop over the headings carries them. */
  datatype Claims = Claims(claimed: set<string>, imageMap: ImageMap)

  /** One pass of the loop, for heading `i`. */
  function Step(c: Claims, a: Article, i: nat): Claims
    requires i < |a.segments| && DistinctKeys(c.imageMap)
  {
    var link := ImageLink(a.segments[i]);
    if link.None? || IsSelfLink(link.value) then c
    else
      var found := Found(a, i, c.claimed);
      if !Truthy(found) then c
      else Claims(c.claimed + {found.value}, Put(c.imageMap, link.value, found.value))
  }

  /** The state after the first `n` headings. */
  function ClaimsUpTo(a: Article, n: nat): (c: Claims)
    requires n <= |a.segments|
    ensures DistinctKeys(c.imageMap)
  {
    if n == 0 then Claims({}, []) else Step(ClaimsUpTo(a, n - 1), a, n - 1)
  }

  /** `extract_image_map`: empty without an article (and so without headings). */
  function ImageMapOf(article: Option<Article>): ImageMap {
    if article.None? then [] else ClaimsUpTo(article.value, |article.value.segments|).imageMap
  }

  /** The pair links one of the first `n` headings to an image of its after or before zone. */
  predicate FromHeading(a: Article, n: nat, p: (string, string))
    requires n <= |a.segments|
  {
    exists j | 0 <= j < n :: ImageLink(a.segments[j]) == Some(p.0)
                             && (p.1 in a.segments[j].images || p.1 in BeforeZone(a, j))
  }

  /** What the loop keeps true of its state after `n` headings. */
  predicate WellClaimed(a: Article, n: nat, c: Claims)
    requires n <= |a.segments|
  {
    Values(c.imageMap) <= c.claimed
    && DistinctKeys(c.imageMap) && DistinctValues(c.imageMap)
    && forall p | p in c.imageMap :: !IsSelfLink(p.0) && FromHeading(a, n, p)
  }

  lemma FoundInZones(a: Article, i: nat, claimed: set<string>)
    requires i < |a.segments|
    ensures Found(a, i, claimed).Some? ==>
              Found(a, i, claimed).value !in claimed
              && (Found(a, i, claimed).value in a.segments[i].images
                  || Found(a, i, claimed).value in BeforeZone(a, i))
  {
  }

  lemma StepWellClaimed(a: Article, n: nat)
    requires 0 < n <= |a.segments| && WellClaimed(a, n - 1, ClaimsUpTo(a, n - 1))
    ensures WellClaimed(a, n, ClaimsUpTo(a, n))
  {
    var i := n - 1;
    var c := ClaimsUpTo(a, i);
    assert ClaimsUpTo(a, i + 1) == Step(c, a, i);
    var link := ImageLink(a.segments[i]);
    var found := Found(a, i, c.claimed);
    if link.Some? && !IsSelfLink(link.value) && Truthy(found) {
      var img := found.value;
      FoundInZones(a, i, c.claimed);
      var r := Step(c, a, i);
      assert r.imageMap == Put(c.imageMap, link.value, img);
      forall p | p in r.imageMap
        ensures !IsSelfLink(p.0) && FromHeading(a, i + 1, p)
      {
        if p.0 == link.value {
          assert p == (link.value, img);
          assert ImageLink(a.segments[i]) == Some(p.0);
        } else {
          assert p in c.imageMap;
          FromEarlierHeading(a, i, p);
        }
      }
    } else {
      forall p | p in c.imageMap
        ensures FromHeading(a, i + 1, p)
      {
        FromEarlierHeading(a, i, p);
      }
    }
  }

  lemma FromEarlierHeading(a: Article, n: nat, p: (string, string))
    requires n < |a.segments| && FromHeading(a, n, p)
    ensures FromHeading(a, n + 1, p)
  {
    var j :| 0 <= j < n && ImageLink(a.segments[j]) == Some(p.0)
             && (p.1 in a.segments[j].images || p.1 in BeforeZone(a, j));
  }

  lemma {:induction false} ClaimsWellFormed(a: Article, n: nat)
    requires n <= |a.segments|
    ensures WellClaimed(a, n, ClaimsUpTo(a, n))
  {
    if n > 0 {
      ClaimsWellFormed(a, n - 1);
      StepWellClaimed(a, n);
    }
  }

  /**
   * The image map's values are distinct images (no image serves two
   * resources), each from its heading's after or before zone, and its keys
   * are resource links of headings, never self-links; without an article, or
   * without headings, it is empty.
   */
  lemma ImageMapProperties(article: Option<Article>)
    ensures DistinctKeys(ImageMapOf(article)) && DistinctValues(ImageMapOf(article))
    ensures article.None? || article.value.segments == [] ==> ImageMapOf(article) == []
    ensures article.Some? ==>
              forall p | p in ImageMapOf(article) ::
                !IsSelfLink(p.0)
                && exists j | 0 <= j < |article.value.segments| ::
                     ImageLink(article.value.segments[j]) == Some(p.0)
                     && (p.1 in article.value.segments[j].images || p.1 in BeforeZone(article.value, j))
  {
    if article.Some? {
      var a := article.value;
      ClaimsWellFormed(a, |a.segments|);
      forall p | p in ImageMapOf(article)
        ensures exists j | 0 <= j < |a.segments| ::
                  ImageLink(a.segments[j]) == Some(p.0) && (p.1 in a.segments[j].images || p.1 in BeforeZone(a, j))
      {
        assert FromHeading(a, |a.segments|, p);
      }
    }
  }

  /**
   * Heading `i` takes the first unclaimed image after it and, only when there
   * is none, the first unclaimed image before it; without a usable link, or
   * with no free image, nothing changes.
   */
  lemma ImageChoice(a: Article, i: nat)
    requires i < |a.segments|
    ensures var c := ClaimsUpTo(a, i);
            var link := ImageLink(a.segments[i]);
            var after := FirstUnclaimed(a.segments[i].images, c.claimed);
            var before := FirstUnclaimed(BeforeZone(a, i), c.claimed);
            ((link.None? || IsSelfLink(link.value) || (!Truthy(after) && !Truthy(before)))
               ==> ClaimsUpTo(a, i + 1) == c)
            && (link.Some? && !IsSelfLink(link.value) && Truthy(after)
               ==> (link.value, after.value) in ClaimsUpTo(a, i + 1).imageMap
                   && ClaimsUpTo(a, i + 1).claimed == c.claimed + {after.value})
            && (link.Some? && !IsSelfLink(link.value) && !Truthy(after) && Truthy(before)
               ==> (link.value, before.value) in ClaimsUpTo(a, i + 1).imageMap
                   && ClaimsUpTo(a, i + 1).claimed == c.claimed + {before.value})
  {
  }

  /** The loop over one zone's images that stops at the first unclaimed one. */
  method FirstUnclaimedIn(imgs: seq<string>, claimed: set<string>) returns (found: Option<string>)
    ensures found == FirstUnclaimed(imgs, claimed)
  {
    found := None;
    var k := 0;
    while k < |imgs|
      invariant 0 <= k <= |imgs|
      invariant FirstUnclaimed(imgs, claimed) == FirstUnclaimedFrom(imgs, claimed, k)
    {
      if imgs[k] !in claimed {
        found := Some(imgs[k]);
        return;
      }
      k := k + 1;
    }
  }

  /** `extract_image_map`, heading by heading. */
  method ExtractImageMap(article: Option<Article>) returns (imageMap: ImageMap)
    ensures imageMap == ImageMapOf(article)
  {
    if article.None? {
      return [];
    }
    var a := article.value;
    if a.segments == [] {
      return [];
    }
    var claimed: set<string> := {};
    imageMap := [];
    for i := 0 to |a.segments|
      invariant Claims(claimed, imageMap) == ClaimsUpTo(a, i)
    {
      var seg := a.segments[i];
      var resourceLink: string;
      if seg.h3Link.Some? {
        resourceLink := Strip(seg.h3Link.value);
      } else {
        var blockLink := FirstBlockLink(seg.blockLinks);
        resourceLink := if blockLink.Some? then blockLink.value else "";
      }
      assert resourceLink == [] <==> ImageLink(seg).None?;
      assert resourceLink != [] ==> ImageLink(seg) == Some(resourceLink);
      if resourceLink == [] {
        continue;
      }
      if IsSelfLink(resourceLink) {
        continue;
      }
      var found := FirstUnclaimedIn(seg.images, claimed);
      if found.None? || found.value == [] {
        found := FirstUnclaimedIn(if i > 0 then a.segments[i - 1].images else a.preamble, claimed);
      }
      assert found == Found(a, i, claimed);
      if found.Some? && found.value != [] {
        claimed := claimed + {found.value};
        imageMap := Put(imageMap, resourceLink, found.value);
      }
    }
  }

  // ---------------------------------------------------------------- file names within a digest

  /** `f"{base_name}_{counter}{ext}"` for the split of `filename`. */
  function Candidate(filename: string, counter: nat): string {
    var parts := SplitExt(filename);
    parts.0 + "_" + NatToString(counter) + parts.1
  }

  lemma CandidateInjective(filename: string, a: nat, b: nat)
    ensures Candidate(filename, a) == Candidate(filename, b) ==> a == b
  {
    var parts := SplitExt(filename);
    var x, y := Candidate(filename, a), Candidate(filename, b);
    if x == y {
      var lo := |parts.0| + 1;
      assert x[lo..|x| - |parts.1|] == NatToString(a);
      assert y[lo..|y| - |parts.1|] == NatToString(b);
      NatToStringInjective(a, b);
    }
  }

  lemma CandidateIsNew(filename: string, counter: nat)
    ensures Candidate(filename, counter) != filename
  {
    var parts := SplitExt(filename);
    assert |Candidate(filename, counter)| > |parts.0| + |parts.1| == |filename|;
  }

  /**
   * `final_name` is the name the de-duplicating loop settles on: `filename`
   * when it is free, else the first of `base_2.ext`, `base_3.ext`, ... that is.
   */
  ghost predicate FirstFree(finalName: string, filename: string, used: set<string>) {
    finalName !in used
    && (filename !in used ==> finalName == filename)
    && (filename in used ==>
          exists k | k >= 2 :: finalName == Candidate(filename, k)
                               && forall j | 2 <= j < k :: Candidate(filename, j) in used)
  }

  /**
   * The search for a free name, tried names struck from `rest` so that it
   * terminates; `name` is the one being tried and `counter` the next suffix.
   */
  function FreeSearch(filename: string, name: string, counter: nat, rest: set<string>): string
    decreases |rest|
  {
    if name !in rest then name
    else FreeSearch(filename, Candidate(filename, counter), counter + 1, rest - {name})
  }

  function FreeName(filename: string, used: set<string>): string {
    FreeSearch(filename, filename, 2, used)
  }

  /** What holds at each test of the de-duplicating loop. */
  ghost predicate SearchState(filename: string, name: string, counter: nat, rest: set<string>, used: set<string>) {
    counter >= 2
    && rest <= used
    && (name in rest <==> name in used)
    && (forall j | j >= counter :: Candidate(filename, j) in rest <==> Candidate(filename, j) in used)
    && (counter == 2 ==> name == filename)
    && (counter > 2 ==>
          name == Candidate(filename, counter - 1) && filename in used
          && forall j | 2 <= j < counter - 1 :: Candidate(filename, j) in used)
  }

  lemma SearchStep(filename: string, name: string, counter: nat, rest: set<string>, used: set<string>)
    requires SearchState(filename, name, counter, rest, used) && name in used
    ensures SearchState(filename, Candidate(filename, counter), counter + 1, rest - {name}, used)
  {
    forall j | j >= counter
      ensures Candidate(filename, j) != name
    {
      if counter == 2 {
        CandidateIsNew(filename, j);
      } else {
        CandidateInjective(filename, j, counter - 1);
      }
    }
  }

  lemma {:induction false} FreeSearchFinds(filename: string, name: string, counter: nat, rest: set<string>, used: set<string>)
    requires SearchState(filename, name, counter, rest, used)
    ensures FirstFree(FreeSearch(filename, name, counter, rest), filename, used)
    decreases |rest|
  {
    if name in rest {
      SearchStep(filename, name, counter, rest, used);
      FreeSearchFinds(filename, Candidate(filename, counter), counter + 1, rest - {name}, used);
    } else if counter > 2 {
      assert name == Candidate(filename, counter - 1);
    }
  }

  /** The de-duplicated name is free, is the file name itself when that is free, and is otherwise the first free `base_k.ext`. */
  lemma FreeNameIsFirstFree(filename: string, used: set<string>)
    ensures FirstFree(FreeName(filename, used), filename, used)
  {
    FreeSearchFinds(filename, filename, 2, used, used);
  }

  /** The `while final_name in used_filenames` loop. */
  method UniqueName(filename: string, used: set<string>) returns (finalName: string)
    ensures finalName == FreeName(filename, used)
  {
    var parts := SplitExt(filename);
    var baseName, ext := parts.0, parts.1;
    finalName := filename;
    var counter := 2;
    ghost var rest := used;
    while finalName in used
      invariant SearchState(filename, finalName, counter, rest, used)
      invariant FreeSearch(filename, finalName, counter, rest) == FreeName(filename, used)
      decreases |rest|
    {
      SearchStep(filename, finalName, counter, rest, used);
      rest := rest - {finalName};
      finalName := baseName + "_" + NatToString(counter) + ext;
      counter := counter + 1;
    }
  }

  function Used(names: seq<string>): set<string> {
    set n | n in names
  }

  lemma UsedSnoc(names: seq<string>, x: string)
    ensures Used(names + [x]) == Used(names) + {x}
  {
    assert forall n | n in names + [x] :: n in names || n == x;
  }

  /** The names given to files `fs`, in order, each avoiding the ones before it. */
  function NamesFor(fs: seq<string>): (names: seq<string>)
    ensures |names| == |fs|
    decreases |fs|
  {
    if fs == [] then []
    else
      var prev := NamesFor(fs[..|fs| - 1]);
      prev + [FreeName(fs[|fs| - 1], Used(prev))]
  }

  lemma NamesForSnoc(fs: seq<string>, i: nat)
    requires i < |fs|
    ensures NamesFor(fs[..i + 1]) == NamesFor(fs[..i]) + [FreeName(fs[i], Used(NamesFor(fs[..i])))]
  {
    assert fs[..i + 1][..i] == fs[..i];
  }

  /** The clean file names of the images of `m`, in dict order. */
  function Filenames(m: ImageMap): (fs: seq<string>)
    ensures |fs| == |m|
  {
    seq(|m|, i requires 0 <= i < |m| => CleanFilename(m[i].1))
  }

  /** No two names of `names` are equal. */
  predicate AllDistinct(names: seq<string>) {
    forall i, j | 0 <= i < j < |names| :: names[i] != names[j]
  }

  /** The de-duplicated name is not one of the names already used. */
  lemma FreeNameIsFree(filename: string, used: set<string>)
    ensures FreeName(filename, used) !in used
  {
    FreeNameIsFirstFree(filename, used);
  }

  /** The names given within a digest are distinct. */
  lemma {:induction false} NamesDistinct(fs: seq<string>)
    ensures AllDistinct(NamesFor(fs))
    decreases |fs|
  {
    if fs != [] {
      var k := |fs| - 1;
      var prev := NamesFor(fs[..k]);
      NamesDistinct(fs[..k]);
      var names := NamesFor(fs);
      FreeNameIsFree(fs[k], Used(prev));
      assert names == prev + [names[k]];
      forall i, j | 0 <= i < j < |names|
        ensures names[i] != names[j]
      {
        if j < k {
          assert names[i] == prev[i] && names[j] == prev[j];
        } else {
          assert names[i] == prev[i] && prev[i] in Used(prev);
        }
      }
    }
  }

  /**
   * Each name given within a digest is its file's clean name when no earlier
   * image took that, else the first free numbered variant.
   */
  lemma {:induction false} NamesFirstFree(fs: seq<string>)
    ensures forall i | 0 <= i < |fs| :: FirstFree(NamesFor(fs)[i], fs[i], Used(NamesFor(fs)[..i]))
    decreases |fs|
  {
    if fs != [] {
      var k := |fs| - 1;
      var pf := fs[..k];
      var prev := NamesFor(pf);
      NamesFirstFree(pf);
      var names := NamesFor(fs);
      FreeNameIsFirstFree(fs[k], Used(prev));
      assert names[..k] == prev;
      forall i | 0 <= i < k
        ensures FirstFree(names[i], fs[i], Used(names[..i]))
      {
        assert names[..i] == prev[..i];
        assert fs[i] == pf[i];
      }
    }
  }

  /** A download task: the resource link, its image, and the path to save the image under. */
  datatype Task = Task(link: string, imageUrl: string, localPath: string)

  /** `os.path.join("assets", "images", str(digest_number), final_name)`. */
  function LocalPath(digestKey: string, name: string): string {
    "assets/images/" + digestKey + "/" + name
  }

  lemma LocalPathInjective(digestKey: string, a: string, b: string)
    ensures LocalPath(digestKey, a) == LocalPath(digestKey, b) ==> a == b
  {
    var n := |"assets/images/" + digestKey + "/"|;
    if LocalPath(digestKey, a) == LocalPath(digestKey, b) {
      assert LocalPath(digestKey, a)[n..] == a;
      assert LocalPath(digestKey, b)[n..] == b;
    }
  }

  /** The task of each image of `m`, saved under the matching name of `names`. */
  function TaskList(digestKey: string, m: ImageMap, names: seq<string>): (tasks: seq<Task>)
    requires |names| == |m|
    ensures |tasks| == |m|
    decreases |m|
  {
    if m == [] then []
    else
      var k := |m| - 1;
      TaskList(digestKey, m[..k], names[..k]) + [Task(m[k].0, m[k].1, LocalPath(digestKey, names[k]))]
  }

  lemma {:induction false} TaskListAt(digestKey: string, m: ImageMap, names: seq<string>, j: nat)
    requires |names| == |m| && j < |m|
    ensures TaskList(digestKey, m, names)[j] == Task(m[j].0, m[j].1, LocalPath(digestKey, names[j]))
    decreases |m|
  {
    var k := |m| - 1;
    if j < k {
      TaskListAt(digestKey, m[..k], names[..k], j);
    }
  }

  lemma TaskListSnoc(digestKey: string, m: ImageMap, names: seq<string>, f: string, i: nat)
    requires i < |m| && |names| == i
    ensures TaskList(digestKey, m[..i + 1], names + [f])
              == TaskList(digestKey, m[..i], names) + [Task(m[i].0, m[i].1, LocalPath(digestKey, f))]
  {
    assert m[..i + 1][..i] == m[..i];
    assert (names + [f])[..i] == names;
  }

  /** The download tasks of a digest, in dict order. */
  function TasksOf(digestKey: string, m: ImageMap): (tasks: seq<Task>)
    ensures |tasks| == |m|
  {
    TaskList(digestKey, m, NamesFor(Filenames(m)))
  }

  /** The loop that prepares the download tasks. */
  method PrepareTasks(digestKey: string, imageMap: ImageMap) returns (tasks: seq<Task>)
    ensures tasks == TasksOf(digestKey, imageMap)
  {
    tasks := [];
    var usedFilenames: set<string> := {};
    ghost var fs := Filenames(imageMap);
    ghost var names: seq<string> := [];
    for i := 0 to |imageMap|
      invariant names == NamesFor(fs[..i])
      invariant usedFilenames == Used(names)
      invariant tasks == TaskList(digestKey, imageMap[..i], names)
    {
      var resourceLink, imgUrl := imageMap[i].0, imageMap[i].1;
      var filename := CleanFilename(imgUrl);
      var finalName := UniqueName(filename, usedFilenames);
      NamesForSnoc(fs, i);
      UsedSnoc(names, finalName);
      TaskListSnoc(digestKey, imageMap, names, finalName, i);
      names := names + [finalName];
      usedFilenames := usedFilenames + {finalName};
      var localPath := LocalPath(digestKey, finalName);
      tasks := tasks + [Task(resourceLink, imgUrl, localPath)];
    }
    assert fs[..|imageMap|] == fs;
    assert imageMap[..|imageMap|] == imageMap;
  }

  // ---------------------------------------------------------------- process_digest_images

  /** `results`: the link of every task whose image was saved, to its local path. */
  function ResultsOf(tasks: seq<Task>, downloaded: (string, string) -> bool): map<string, string>
    decreases |tasks|
  {
    if tasks == [] then map[]
    else
      var r := ResultsOf(tasks[..|tasks| - 1], downloaded);
      var t := tasks[|tasks| - 1];
      if downloaded(t.imageUrl, t.localPath) then r[t.link := t.localPath] else r
  }

  lemma {:induction false} ResultsOfProperties(tasks: seq<Task>, downloaded: (string, string) -> bool)
    requires forall i, j | 0 <= i < j < |tasks| :: tasks[i].link != tasks[j].link
    ensures forall l | l in ResultsOf(tasks, downloaded) ::
              exists i | 0 <= i < |tasks| :: tasks[i].link == l
                && ResultsOf(tasks, downloaded)[l] == tasks[i].localPath
                && downloaded(tasks[i].imageUrl, tasks[i].localPath)
    ensures forall i | 0 <= i < |tasks| && downloaded(tasks[i].imageUrl, tasks[i].localPath) ::
              tasks[i].link in ResultsOf(tasks, downloaded)
              && ResultsOf(tasks, downloaded)[tasks[i].link] == tasks[i].localPath
    decreases |tasks|
  {
    if tasks != [] {
      var k := |tasks| - 1;
      var pt := tasks[..k];
      ResultsOfProperties(pt, downloaded);
      assert forall i | 0 <= i < k :: pt[i] == tasks[i];
    }
  }

  /** `process_digest_images`: nothing without an article or without images to fetch. */
  function DigestImages(digestKey: string, article: Option<Article>, downloaded: (string, string) -> bool): map<string, string> {
    var m := ImageMapOf(article);
    if m == [] then map[] else ResultsOf(TasksOf(digestKey, m), downloaded)
  }

  lemma ResultsDistinctFiles(tasks: seq<Task>, downloaded: (string, string) -> bool)
    requires forall i, j | 0 <= i < j < |tasks| :: tasks[i].link != tasks[j].link
    requires forall i, j | 0 <= i < j < |tasks| :: tasks[i].localPath != tasks[j].localPath
    ensures forall l1, l2 | l1 in ResultsOf(tasks, downloaded) && l2 in ResultsOf(tasks, downloaded) && l1 != l2 ::
              ResultsOf(tasks, downloaded)[l1] != ResultsOf(tasks, downloaded)[l2]
  {
    var r := ResultsOf(tasks, downloaded);
    ResultsOfProperties(tasks, downloaded);
    forall l1, l2 | l1 in r && l2 in r && l1 != l2
      ensures r[l1] != r[l2]
    {
      var i1 :| 0 <= i1 < |tasks| && tasks[i1].link == l1 && r[l1] == tasks[i1].localPath;
      var i2 :| 0 <= i2 < |tasks| && tasks[i2].link == l2 && r[l2] == tasks[i2].localPath;
      assert i1 != i2;
    }
  }

  /** The tasks of a digest have distinct links and distinct paths under `assets/images/<digest>/`. */
  lemma TasksProperties(digestKey: string, article: Option<Article>)
    ensures var tasks := TasksOf(digestKey, ImageMapOf(article));
            (forall i, j | 0 <= i < j < |tasks| :: tasks[i].link != tasks[j].link)
            && (forall i, j | 0 <= i < j < |tasks| :: tasks[i].localPath != tasks[j].localPath)
            && (forall i | 0 <= i < |tasks| :: StartsWith(tasks[i].localPath, "assets/images/" + digestKey + "/"))
  {
    var m := ImageMapOf(article);
    var names := NamesFor(Filenames(m));
    var tasks := TasksOf(digestKey, m);
    ImageMapProperties(article);
    NamesDistinct(Filenames(m));
    forall i | 0 <= i < |tasks|
      ensures tasks[i] == Task(m[i].0, m[i].1, LocalPath(digestKey, names[i]))
    {
      TaskListAt(digestKey, m, names, i);
    }
    forall i, j | 0 <= i < j < |tasks|
      ensures tasks[i].localPath != tasks[j].localPath
    {
      LocalPathInjective(digestKey, names[i], names[j]);
    }
    forall i | 0 <= i < |tasks|
      ensures StartsWith(tasks[i].localPath, "assets/images/" + digestKey + "/")
    {
      assert tasks[i].localPath == ("assets/images/" + digestKey + "/") + names[i];
    }
  }

  /**
   * A digest's results map resource links to saved local paths under
   * `assets/images/<digest>/`: every link whose image was saved is there with
   * its task's path, no other link is, and no two links share a file.
   */
  lemma DigestImagesProperties(digestKey: string, article: Option<Article>, downloaded: (string, string) -> bool)
    ensures var tasks := TasksOf(digestKey, ImageMapOf(article));
            var r := DigestImages(digestKey, article, downloaded);
            (forall l | l in r ::
               exists i | 0 <= i < |tasks| :: tasks[i].link == l && r[l] == tasks[i].localPath
                                              && downloaded(tasks[i].imageUrl, tasks[i].localPath))
            && (forall i | 0 <= i < |tasks| && downloaded(tasks[i].imageUrl, tasks[i].localPath) ::
                  tasks[i].link in r && r[tasks[i].link] == tasks[i].localPath)
            && (forall l1, l2 | l1 in r && l2 in r && l1 != l2 :: r[l1] != r[l2])
            && (forall l | l in r :: StartsWith(r[l], "assets/images/" + digestKey + "/"))
  {
    var tasks := TasksOf(digestKey, ImageMapOf(article));
    TasksProperties(digestKey, article);
    ResultsOfProperties(tasks, downloaded);
    ResultsDistinctFiles(tasks, downloaded);
  }

  /** The downloads, one task after another, collecting the saved ones. */
  method DownloadAll(tasks: seq<Task>, downloaded: (string, string) -> bool) returns (results: map<string, string>)
    ensures results == ResultsOf(tasks, downloaded)
  {
    results := map[];
    for i := 0 to |tasks|
      invariant results == ResultsOf(tasks[..i], downloaded)
    {
      var task := tasks[i];
      assert tasks[..i + 1][..i] == tasks[..i];
      var success := downloaded(task.imageUrl, task.localPath);
      if success {
        results := results[task.link := task.localPath];
      }
    }
    assert tasks[..|tasks|] == tasks;
  }

  /** `process_digest_images`, with `downloaded` in place of `download_and_process_image`. */
  method ProcessDigestImages(digestKey: string, article: Option<Article>, downloaded: (string, string) -> bool)
    returns (results: map<string, string>)
    ensures results == DigestImages(digestKey, article, downloaded)
  {
    var imageMap := ExtractImageMap(article);
    if imageMap == [] {
      return map[];
    }
    var tasks := PrepareTasks(digestKey, imageMap);
    results := DownloadAll(tasks, downloaded);
  }

  // ---------------------------------------------------------------- main: choosing the digests

  /** `image_progress.json`: each digest key done so far, to that digest's results. */
  type ImageProgress = map<string, map<string, string>>

  /**
   * `processed_digests.json`, as its items in file order: a digest number and
   * the digest's page URL. Its keys are distinct, so a number names one entry.
   */
  predicate NumbersAreKeys(processed: seq<(nat, string)>) {
    forall p, q | p in processed && q in processed && p.0 == q.0 :: p == q
  }

  /** `digests_to_process`: the entries whose key is not in the progress yet, in file order. */
  function PendingDigests(processed: seq<(nat, string)>, progress: ImageProgress): (r: seq<(nat, string)>)
    ensures forall d | d in r :: d in processed && DigestKey(d.0) !in progress
    ensures forall d | d in processed && DigestKey(d.0) !in progress :: d in r
    decreases |processed|
  {
    if processed == [] then []
    else
      var k := |processed| - 1;
      assert processed == processed[..k] + [processed[k]];
      var prev := PendingDigests(processed[..k], progress);
      if DigestKey(processed[k].0) !in progress then prev + [processed[k]] else prev
  }

  predicate SortedByNumber(s: seq<(nat, string)>) {
    forall i, j | 0 <= i < j < |s| :: s[i].0 <= s[j].0
  }

  /** Inserts `x` after every entry whose number is not larger, as a stable sort does. */
  function InsertByNumber(s: seq<(nat, string)>, x: (nat, string)): (r: seq<(nat, string)>)
    requires SortedByNumber(s)
    ensures SortedByNumber(r) && multiset(r) == multiset(s) + multiset{x}
    decreases |s|
  {
    if s == [] || s[|s| - 1].0 <= x.0 then s + [x]
    else
      var k := |s| - 1;
      var front := InsertByNumber(s[..k], x);
      InsertBeforeLast(s, x, front);
      front + [s[k]]
  }

  lemma InsertBeforeLast(s: seq<(nat, string)>, x: (nat, string), front: seq<(nat, string)>)
    requires SortedByNumber(s) && s != [] && x.0 < s[|s| - 1].0
    requires SortedByNumber(front) && multiset(front) == multiset(s[..|s| - 1]) + multiset{x}
    ensures SortedByNumber(front + [s[|s| - 1]])
    ensures multiset(front + [s[|s| - 1]]) == multiset(s) + multiset{x}
  {
    var k := |s| - 1;
    forall i | 0 <= i < |front|
      ensures front[i].0 <= s[k].0
    {
      assert front[i] in multiset(front);
      if front[i] != x {
        assert front[i] in multiset(s[..k]);
      }
    }
    assert s == s[..k] + [s[k]];
  }

  /** `digests_to_process.sort(key=lambda x: int(x[0]))`. */
  function SortByNumber(s: seq<(nat, string)>): (r: seq<(nat, string)>)
    ensures SortedByNumber(r) && multiset(r) == multiset(s)
    decreases |s|
  {
    if s == [] then []
    else
      var k := |s| - 1;
      assert s == s[..k] + [s[k]];
      InsertByNumber(SortByNumber(s[..k]), s[k])
  }

  /** The loop that collects the digests to process, then the sort. */
  method SelectDigests(processed: seq<(nat, string)>, progress: ImageProgress) returns (todo: seq<(nat, string)>)
    ensures todo == SortByNumber(PendingDigests(processed, progress))
  {
    var pending := [];
    for i := 0 to |processed|
      invariant pending == PendingDigests(processed[..i], progress)
    {
      assert processed[..i + 1][..i] == processed[..i];
      if DigestKey(processed[i].0) !in progress {
        pending := pending + [processed[i]];
      }
    }
    assert processed[..|processed|] == processed;
    todo := SortByNumber(pending);
  }

  // ---------------------------------------------------------------- main: fetching the images

  /** What one digest's entry becomes: the results of `process_digest_images` for it. */
  function DigestResults(pageOf: string -> Option<Article>, downloaded: (string, string) -> bool): ((nat, string)) -> map<string, string> {
    (d: (nat, string)) => DigestImages(DigestKey(d.0), pageOf(d.1), downloaded)
  }

  /** The progress after the digests of `todo`, in order, each stored under its key with its results. */
  function Record(progress: ImageProgress, todo: seq<(nat, string)>, resultsOf: ((nat, string)) -> map<string, string>): ImageProgress
    decreases |todo|
  {
    if todo == [] then progress
    else
      var k := |todo| - 1;
      Record(progress, todo[..k], resultsOf)[DigestKey(todo[k].0) := resultsOf(todo[k])]
  }

  /** The loop over the digests to process: `progress[digest_num] = results`. */
  method FetchDigestImages(todo: seq<(nat, string)>, progress: ImageProgress,
                           pageOf: string -> Option<Article>, downloaded: (string, string) -> bool)
    returns (newProgress: ImageProgress)
    ensures newProgress == Record(progress, todo, DigestResults(pageOf, downloaded))
  {
    newProgress := progress;
    ghost var resultsOf := DigestResults(pageOf, downloaded);
    for i := 0 to |todo|
      invariant newProgress == Record(progress, todo[..i], resultsOf)
    {
      var digestNum := DigestKey(todo[i].0);
      var results := ProcessDigestImages(digestNum, pageOf(todo[i].1), downloaded);
      RecordStep(progress, todo, i, resultsOf);
      newProgress := newProgress[digestNum := results];
    }
    assert todo[..|todo|] == todo;
  }

  lemma RecordStep(progress: ImageProgress, todo: seq<(nat, string)>, i: nat,
                   resultsOf: ((nat, string)) -> map<string, string>)
    requires i < |todo|
    ensures Record(progress, todo[..i + 1], resultsOf)
            == Record(progress, todo[..i], resultsOf)[DigestKey(todo[i].0) := resultsOf(todo[i])]
  {
    assert todo[..i + 1][..i] == todo[..i];
  }

  /** After the loop every digest of `todo` has its results. */
  lemma {:induction false} RecordedDigests(progress: ImageProgress, todo: seq<(nat, string)>,
                                           resultsOf: ((nat, string)) -> map<string, string>)
    requires NumbersAreKeys(todo)
    ensures var r := Record(progress, todo, resultsOf);
            forall d | d in todo :: DigestKey(d.0) in r && r[DigestKey(d.0)] == resultsOf(d)
    decreases |todo|
  {
    if todo != [] {
      var k := |todo| - 1;
      var front := todo[..k];
      assert todo == front + [todo[k]];
      assert NumbersAreKeys(front) by {
        forall p, q | p in front && q in front && p.0 == q.0
          ensures p == q
        {
          assert p in todo && q in todo;
        }
      }
      RecordedDigests(progress, front, resultsOf);
      forall d | d in todo && d != todo[k]
        ensures DigestKey(d.0) != DigestKey(todo[k].0)
      {
        assert d in front;
        if DigestKey(d.0) == DigestKey(todo[k].0) {
          NatToStringInjective(d.0, todo[k].0);
        }
      }
    }
  }

  /** The keys after the loop are the old keys and those of `todo`; a key not in `todo` keeps its results. */
  lemma {:induction false} RecordedKeys(progress: ImageProgress, todo: seq<(nat, string)>,
                                        resultsOf: ((nat, string)) -> map<string, string>)
    ensures var r := Record(progress, todo, resultsOf);
            (forall k | k in r :: k in progress || exists d | d in todo :: DigestKey(d.0) == k)
            && (forall k | k in progress && (forall d | d in todo :: DigestKey(d.0) != k) ::
                  k in r && r[k] == progress[k])
    decreases |todo|
  {
    if todo != [] {
      var k := |todo| - 1;
      var front := todo[..k];
      assert todo == front + [todo[k]];
      RecordedKeys(progress, front, resultsOf);
      assert forall d | d in front :: d in todo;
    }
  }

  /** Every digest key of the progress maps to paths under that digest's image folder. */
  predicate LocalPaths(progress: ImageProgress) {
    forall k | k in progress :: forall l | l in progress[k] :: StartsWith(progress[k][l], "assets/images/" + k + "/")
  }

  /** Recording digests keeps every stored path inside its digest's image folder. */
  lemma {:induction false} RecordingKeepsLocalPaths(progress: ImageProgress, todo: seq<(nat, string)>,
                                                    pageOf: string -> Option<Article>, downloaded: (string, string) -> bool)
    requires LocalPaths(progress)
    ensures LocalPaths(Record(progress, todo, DigestResults(pageOf, downloaded)))
    decreases |todo|
  {
    if todo != [] {
      var k := |todo| - 1;
      RecordingKeepsLocalPaths(progress, todo[..k], pageOf, downloaded);
      DigestImagesProperties(DigestKey(todo[k].0), pageOf(todo[k].1), downloaded);
    }
  }

  /** The progress after one run of `main`. */
  function ImagesRun(processed: seq<(nat, string)>, progress: ImageProgress,
                     pageOf: string -> Option<Article>, downloaded: (string, string) -> bool): ImageProgress {
    Record(progress, SortByNumber(PendingDigests(processed, progress)), DigestResults(pageOf, downloaded))
  }

  /** The digests a run processes are exactly the entries whose key is not in the progress. */
  lemma SortedPending(processed: seq<(nat, string)>, progress: ImageProgress)
    ensures forall d :: d in SortByNumber(PendingDigests(processed, progress))
                        <==> d in processed && DigestKey(d.0) !in progress
  {
    var pending := PendingDigests(processed, progress);
    var todo := SortByNumber(pending);
    forall d
      ensures d in todo <==> d in pending
    {
      assert d in todo <==> d in multiset(todo);
      assert d in pending <==> d in multiset(pending);
    }
  }

  /** Once every entry's key is in the progress, nothing is left to process. */
  lemma {:induction false} NothingPending(processed: seq<(nat, string)>, progress: ImageProgress)
    requires forall d | d in processed :: DigestKey(d.0) in progress
    ensures PendingDigests(processed, progress) == []
    decreases |processed|
  {
    if processed != [] {
      var k := |processed| - 1;
      assert processed[k] in processed;
      assert forall d | d in processed[..k] :: d in processed;
      NothingPending(processed[..k], progress);
    }
  }

  /**
   * A run records results for every digest that was not done, leaves the
   * digests that were done alone, and so leaves nothing for the next run.
   */
  lemma ImagesRunProperties(processed: seq<(nat, string)>, progress: ImageProgress,
                            pageOf: string -> Option<Article>, downloaded: (string, string) -> bool)
    requires NumbersAreKeys(processed)
    ensures var r := ImagesRun(processed, progress, pageOf, downloaded);
            (forall d | d in processed && DigestKey(d.0) !in progress ::
               DigestKey(d.0) in r && r[DigestKey(d.0)] == DigestImages(DigestKey(d.0), pageOf(d.1), downloaded))
            && (forall k | k in progress :: k in r && r[k] == progress[k])
            && PendingDigests(processed, r) == []
  {
    var todo := SortByNumber(PendingDigests(processed, progress));
    var resultsOf := DigestResults(pageOf, downloaded);
    SortedPending(processed, progress);
    assert NumbersAreKeys(todo);
    RecordedDigests(progress, todo, resultsOf);
    RecordedKeys(progress, todo, resultsOf);
    var r := Record(progress, todo, resultsOf);
    forall d | d in processed && DigestKey(d.0) !in progress
      ensures DigestKey(d.0) in r && r[DigestKey(d.0)] == DigestImages(DigestKey(d.0), pageOf(d.1), downloaded)
    {
      assert r[DigestKey(d.0)] == resultsOf(d);
    }
    NothingPending(processed, r);
  }

  // ---------------------------------------------------------------- main: applying the images

  /** `str(record.get("DigestNumber", ""))`. */
  function RecordDigestKey(r: Record): string {
    if r.digestNumber.Some? then DigestKey(r.digestNumber.value) else ""
  }

  /** The record's link is among the results of its digest. */
  predicate HasImage(r: Record, progress: ImageProgress) {
    RecordDigestKey(r) in progress && r.link in progress[RecordDigestKey(r)]
  }

  /** The `Image` a record is given: its digest's local path for its link, or `""`. */
  function ImageFor(r: Record, progress: ImageProgress): (image: string)
    ensures HasImage(r, progress) ==> image == progress[RecordDigestKey(r)][r.link]
    ensures !HasImage(r, progress) ==> image == ""
  {
    var images := if RecordDigestKey(r) in progress then progress[RecordDigestKey(r)] else map[];
    if r.link in images then images[r.link] else ""
  }

  function WithImage(r: Record, progress: ImageProgress): Record {
    r.(image := Some(ImageFor(r, progress)))
  }

  /** The number of records that get an image. */
  function CountWithImages(recs: seq<Record>, progress: ImageProgress): (n: nat)
    ensures n <= |recs|
    ensures n == |recs| <==> forall i | 0 <= i < |recs| :: HasImage(recs[i], progress)
    ensures n == 0 <==> forall i | 0 <= i < |recs| :: !HasImage(recs[i], progress)
    decreases |recs|
  {
    if recs == [] then 0
    else
      var k := |recs| - 1;
      var n := CountWithImages(recs[..k], progress) + if HasImage(recs[k], progress) then 1 else 0;
      assert forall i | 0 <= i < k :: recs[..k][i] == recs[i];
      n
  }

  /** Every record's image is empty or a file in its own digest's image folder. */
  lemma ImagesAreLocal(r: Record, progress: ImageProgress)
    requires LocalPaths(progress)
    ensures ImageFor(r, progress) == ""
            || StartsWith(ImageFor(r, progress), "assets/images/" + RecordDigestKey(r) + "/")
  {
  }

  /** The loop that gives every record its `Image`, counting those with one. */
  method ApplyImages(data: array<Record>, progress: ImageProgress) returns (updated: nat, noImage: nat)
    modifies data
    ensures forall i | 0 <= i < data.Length :: data[i] == WithImage(old(data[i]), progress)
    ensures updated == CountWithImages(old(data[..]), progress)
    ensures updated + noImage == data.Length
  {
    ghost var before := data[..];
    updated, noImage := 0, 0;
    for i := 0 to data.Length
      invariant forall k | 0 <= k < i :: data[k] == WithImage(before[k], progress)
      invariant forall k | i <= k < data.Length :: data[k] == before[k]
      invariant updated == CountWithImages(before[..i], progress)
      invariant updated + noImage == i
    {
      var record := data[i];
      var link := record.link;
      var digestNum := RecordDigestKey(record);
      var digestImages := if digestNum in progress then progress[digestNum] else map[];
      CountStep(before, i, progress);
      ghost var mid := data[..];
      if link in digestImages {
        data[i] := record.(image := Some(digestImages[link]));
        updated := updated + 1;
      } else {
        data[i] := record.(image := Some(""));
        noImage := noImage + 1;
      }
      assert data[i] == WithImage(before[i], progress);
      assert forall k | 0 <= k < data.Length && k != i :: data[k] == mid[k];
    }
    assert before[..data.Length] == before;
  }

  lemma CountStep(recs: seq<Record>, i: nat, progress: ImageProgress)
    requires i < |recs|
    ensures CountWithImages(recs[..i + 1], progress)
            == CountWithImages(recs[..i], progress) + if HasImage(recs[i], progress) then 1 else 0
  {
    assert recs[..i + 1][..i] == recs[..i];
  }

  /** `fetch_images.py`'s `main`: the progress it saves and the records it writes back. */
  method FetchImages(data: array<Record>, progress: ImageProgress, processed: seq<(nat, string)>,
                     pageOf: string -> Option<Article>, downloaded: (string, string) -> bool)
    returns (newProgress: ImageProgress, updated: nat, noImage: nat)
    modifies data
    ensures newProgress == ImagesRun(processed, progress, pageOf, downloaded)
    ensures forall i | 0 <= i < data.Length :: data[i] == WithImage(old(data[i]), newProgress)
    ensures updated == CountWithImages(old(data[..]), newProgress)
    ensures updated + noImage == data.Length
  {
    var todo := SelectDigests(processed, progress);
    newProgress := progress;
    if todo != [] {
      newProgress := FetchDigestImages(todo, progress, pageOf, downloaded);
    }
    updated, noImage := ApplyImages(data, newProgress);
  }
}
