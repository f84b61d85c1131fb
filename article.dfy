/**
 * A weekly digest page, as both `raw/parse_digests.py` and
 * `raw/fetch_images.py` read it: the content of its `<article>` element cut
 * at each `<h3>` heading into segments. The regexes that find the article,
 * the headings, the links and the images are not modelled; what they match is
 * given.
 */
module Article {
  import opened Wrappers
  import opened Text

  /** One `<h3>` heading and the block that follows it, up to the next heading or the end. */
  datatype Segment = Segment(
    /** the `href` of the heading's `<a>` tag, if it has one, unstripped */
    h3Link: Option<string>,
    /**
     * the title: the text of the heading's `<a>` tag when it has one, else the
     * heading's whole text; tags removed, stripped and unescaped
     */
    title: string,
    /** the `href` of every `<a>` tag in the block, in order */
    blockLinks: seq<string>,
    /** the block with every tag replaced by a space */
    blockText: string,
    /** the `src` of each `<img>` tag of the block that points into `wp-content/uploads`, in order */
    images: seq<string>)

  /** The article: the images before its first heading, and its segments. */
  datatype Article = Article(preamble: seq<string>, segments: seq<Segment>)

  // ---------------------------------------------------------------- choosing the resource link

  /** A block link that may stand for the resource: not an upload, not an anchor, an `http` URL. */
  predicate Usable(candidate: string) {
    !Contains(candidate, "wp-content/uploads")
    && !StartsWith(candidate, "#")
    && StartsWith(candidate, "http")
  }

  /** The first usable block link. */
  function FirstUsable(links: seq<string>): (r: Option<string>)
    ensures r.Some? ==> Usable(r.value) && r.value in links
    ensures r.Some? ==> exists i | 0 <= i < |links| :: links[i] == r.value
                          && forall j | 0 <= j < i :: !Usable(links[j])
    ensures r.None? <==> forall i | 0 <= i < |links| :: !Usable(links[i])
  {
    if links == [] then None
    else if Usable(links[0]) then Some(links[0])
    else
      var r := FirstUsable(links[1..]);
      assert forall i | 1 <= i < |links| :: links[i] == links[1..][i - 1];
      r
  }

  /** The `#` test adds nothing: a link that starts with `http` never starts with `#`. */
  lemma AnchorTestIsRedundant(candidate: string)
    ensures Usable(candidate) <==>
              !Contains(candidate, "wp-content/uploads") && StartsWith(candidate, "http")
  {
    if StartsWith(candidate, "http") {
      assert candidate[0] == "http"[0];
    }
  }

  /** The loop over the block links that stops at the first usable one. */
  method FirstBlockLink(links: seq<string>) returns (link: Option<string>)
    ensures link == FirstUsable(links)
  {
    link := None;
    var k := 0;
    while k < |links|
      invariant 0 <= k <= |links|
      invariant forall j | 0 <= j < k :: !Usable(links[j])
    {
      var candidate := links[k];
      if Contains(candidate, "wp-content/uploads") {
        k := k + 1;
        continue;
      }
      if StartsWith(candidate, "#") {
        k := k + 1;
        continue;
      }
      if !StartsWith(candidate, "http") {
        k := k + 1;
        continue;
      }
      link := Some(candidate);
      FirstUsableIs(links, k);
      return;
    }
  }

  lemma {:induction false} FirstUsableIs(links: seq<string>, k: nat)
    requires k < |links| && Usable(links[k])
    requires forall j | 0 <= j < k :: !Usable(links[j])
    ensures FirstUsable(links) == Some(links[k])
  {
    if k > 0 {
      assert forall j | 0 <= j < k - 1 :: links[1..][j] == links[j + 1];
      FirstUsableIs(links[1..], k - 1);
    }
  }

  /**
   * A link to the digest site itself rather than to a resource: it mentions
   * `suvitruf.ru` but not `wp-content`.
   */
  predicate IsSelfLink(link: string) {
    Contains(link, "suvitruf.ru") && !Contains(link, "wp-content")
  }
}
