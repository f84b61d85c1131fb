/**
 * `raw/parse_digests.py`: reading a weekly digest page into new records of
 * `data.json`. The page's header match, its article segments and every
 * resource page are given; fetching them is not modelled.
 */
module ParseDigests {
  import opened Wrappers
  import opened Text
  import opened Records
  import opened Article

  // ---------------------------------------------------------------- the header

  /** The Russian month names in the genitive, as the header writes them. */
  const MonthsRu: map<string, nat> := map[
    "января" := 1, "февраля" := 2, "марта" := 3, "апреля" := 4,
    "мая" := 5, "июня" := 6, "июля" := 7, "августа" := 8,
    "сентября" := 9, "октября" := 10, "ноября" := 11, "декабря" := 12]

  /** `MONTHS_RU.get(name.lower(), 1)`. */
  function MonthNumber(name: string): (m: nat)
    ensures 1 <= m <= 12
    ensures Lower(name) !in MonthsRu ==> m == 1
  {
    var key := Lower(name);
    if key in MonthsRu then MonthsRu[key] else 1
  }

  /** The month lookup ignores case. */
  lemma MonthNumberIgnoresCase(name: string)
    ensures MonthNumber(Lower(name)) == MonthNumber(name)
  {
    LowerIdempotent(name);
  }

  /** Every name of the table, written as in the table, gives its own number. */
  lemma MonthTableLookup(name: string)
    requires name in MonthsRu
    ensures MonthNumber(name) == MonthsRu[name]
  {
    LowerOfLowercase(name);
  }

  /**
   * What the header regex captured: `#(\d+)`, the day `(\d+)`, the month
   * name `(\w+)` and the year `(\d{4})`, the numbers already converted by `int()`.
   */
  datatype HeaderMatch = HeaderMatch(number: nat, day: nat, monthName: string, year: nat)

  /** `f"{year}-{month:02d}-{day:02d}"`. */
  function HeaderDate(h: HeaderMatch): string {
    NatToString(h.year) + "-" + Pad2(MonthNumber(h.monthName)) + "-" + Pad2(h.day)
  }

  /** `parse_digest_header` after the match: the number and the date, or nothing without a match. */
  function ParseDigestHeader(m: Option<HeaderMatch>): (r: Option<(nat, string)>)
    ensures r.None? <==> m.None?
    ensures r.Some? ==> r.value.0 == m.value.number && r.value.1 == HeaderDate(m.value)
  {
    match m
    case None => None
    case Some(h) => Some((h.number, HeaderDate(h)))
  }

  /** A four-digit year and a day below 100 give `yyyy-mm-dd`, whose fields read back. */
  lemma HeaderDateShape(h: HeaderMatch)
    requires 1000 <= h.year <= 9999 && h.day < 100
    ensures var d := HeaderDate(h);
      |d| == 10 && d[4] == '-' && d[7] == '-'
      && AllDigits(d[0..4]) && AllDigits(d[5..7]) && AllDigits(d[8..10])
      && Value(d[0..4]) == h.year && Value(d[5..7]) == MonthNumber(h.monthName)
      && 1 <= Value(d[5..7]) <= 12 && Value(d[8..10]) == h.day
  {
    NatToStringWidth(h.year);
    ValueOfNatToString(h.year);
    var d := HeaderDate(h);
    assert d[0..4] == NatToString(h.year);
    assert d[5..7] == Pad2(MonthNumber(h.monthName));
    assert d[8..10] == Pad2(h.day);
  }

  // ---------------------------------------------------------------- the resources of a digest

  /** A resource entry: link, title and description. */
  datatype Resource = Resource(link: string, title: string, description: string)

  /** The longest description kept whole. */
  const MaxDescription: nat := 200

  /** Longer descriptions keep their first 197 characters and end in `...`. */
  function Truncate(d: string): (r: string)
    ensures |r| <= MaxDescription
    ensures |d| <= MaxDescription ==> r == d
    ensures |d| > MaxDescription ==> |r| == MaxDescription && r[..197] == d[..197] && r[197..] == "..."
  {
    if |d| > MaxDescription then d[..197] + "..." else d
  }

  /** The block text, whitespace runs collapsed to one space, stripped, truncated. */
  function Description(blockText: string): (r: string)
    ensures |r| <= MaxDescription && Collapsed(r)
    ensures |CollapseSpaces(blockText)| <= MaxDescription ==> r == CollapseSpaces(blockText)
    ensures |CollapseSpaces(blockText)| > MaxDescription ==>
              |r| == MaxDescription && r[..197] == CollapseSpaces(blockText)[..197] && r[197..] == "..."
  {
    var d := CollapseSpaces(blockText);
    TruncateKeepsCollapsed(d);
    Truncate(d)
  }

  /** Cutting a collapsed text to 197 characters and `...` leaves it collapsed. */
  lemma TruncateKeepsCollapsed(d: string)
    requires Collapsed(d)
    ensures Collapsed(Truncate(d))
  {
    if |d| > MaxDescription {
      var r := Truncate(d);
      assert forall i | 0 <= i < 197 :: r[i] == d[i];
      assert r[197] == '.' && r[198] == '.' && r[199] == '.';
    }
  }

  /**
   * The link `parse_digests.py` takes for a segment: the heading's link,
   * stripped, unless that is empty; then the first usable block link.
   */
  function DigestLink(seg: Segment): (r: Option<string>)
    ensures r.Some? ==> r.value != []
    ensures seg.h3Link.Some? && Strip(seg.h3Link.value) != [] ==> r == Some(Strip(seg.h3Link.value))
    ensures seg.h3Link.None? || Strip(seg.h3Link.value) == [] ==> r == FirstUsable(seg.blockLinks)
  {
    var fromH3 := if seg.h3Link.Some? then Strip(seg.h3Link.value) else [];
    if fromH3 != [] then Some(fromH3) else FirstUsable(seg.blockLinks)
  }

  /** The resource of one segment; none for an empty title, no link, or a self-link. */
  function ResourceOf(seg: Segment): (r: Option<Resource>)
    ensures r.Some? ==> r.value.title != [] && r.value.link != [] && !IsSelfLink(r.value.link)
                        && |r.value.description| <= MaxDescription && Collapsed(r.value.description)
    ensures seg.title == [] || DigestLink(seg).None? ==> r.None?
    ensures seg.title != [] && DigestLink(seg).Some? ==>
              (r.None? <==> IsSelfLink(DigestLink(seg).value))
    ensures seg.title != [] && DigestLink(seg).Some? && !IsSelfLink(DigestLink(seg).value) ==>
              r == Some(Resource(DigestLink(seg).value, seg.title, Description(seg.blockText)))
  {
    if seg.title == [] then None
    else
      var link :- DigestLink(seg);
      if IsSelfLink(link) then None
      else Some(Resource(link, seg.title, Description(seg.blockText)))
  }

  /** The resources of the segments, in heading order. */
  function ResourcesOf(segs: seq<Segment>): seq<Resource> {
    if segs == [] then []
    else
      var r := ResourceOf(segs[|segs| - 1]);
      ResourcesOf(segs[..|segs| - 1]) + (if r.Some? then [r.value] else [])
  }

  /** Every resource extracted has a title, a link that is no self-link, and a short, collapsed description. */
  lemma {:induction false} ResourcesProperties(segs: seq<Segment>)
    ensures var rs := ResourcesOf(segs);
      |rs| <= |segs|
      && forall i | 0 <= i < |rs| :: rs[i].title != [] && rs[i].link != []
           && !IsSelfLink(rs[i].link) && |rs[i].description| <= MaxDescription
           && Collapsed(rs[i].description)
  {
    if segs != [] {
      ResourcesProperties(segs[..|segs| - 1]);
    }
  }

  /** `extract_resources_from_digest`: no article, no resources. */
  method ExtractResourcesFromDigest(article: Option<Article>) returns (resources: seq<Resource>)
    ensures resources == if article.None? then [] else ResourcesOf(article.value.segments)
  {
    resources := [];
    if article.None? {
      return;
    }
    var segs := article.value.segments;
    var i := 0;
    while i < |segs|
      invariant 0 <= i <= |segs|
      invariant resources == ResourcesOf(segs[..i])
    {
      var seg := segs[i];
      assert segs[..i + 1][..i] == segs[..i];
      i := i + 1;
      if seg.title == [] {
        continue;
      }
      var link: string := if seg.h3Link.Some? then Strip(seg.h3Link.value) else [];
      if link == [] {
        var chosen := FirstBlockLink(seg.blockLinks);
        if chosen.None? {
          continue;
        }
        link := chosen.value;
      }
      if IsSelfLink(link) {
        continue;
      }
      var desc := CollapseSpaces(seg.blockText);
      if |desc| > MaxDescription {
        desc := desc[..197] + "...";
      }
      resources := resources + [Resource(link, seg.title, desc)];
    }
    assert segs[..|segs|] == segs;
  }

  // ---------------------------------------------------------------- language and author

  /**
   * What the regexes of `detect_language_and_author` find on a resource page:
   * the two-letter `lang` of `<html>`, the content of the first author meta tag
   * pattern that matches, the JSON-LD author name, the text of `<a rel="author">`.
   */
  datatype ResourcePage = ResourcePage(
    lang: Option<string>,
    metaAuthor: Option<string>,
    ldAuthor: Option<string>,
    relAuthor: Option<string>)

  /** `re.search(r'\.(ru|by|ua|kz)(/|$)', url)`: a Russian-speaking country's domain. */
  predicate RuHost(url: string) {
    exists i: nat | i + 3 <= |url| ::
      url[i] == '.' && url[i + 1..i + 3] in {"ru", "by", "ua", "kz"}
      && (i + 3 == |url| || url[i + 3] == '/')
  }

  /** A meta author, stripped; one that looks like a URL is dropped. */
  function MetaAuthor(raw: Option<string>): (a: string)
    ensures !StartsWith(a, "http")
    ensures raw.None? ==> a == []
    ensures raw.Some? && !StartsWith(Strip(raw.value), "http") ==> a == Strip(raw.value)
    ensures raw.Some? && StartsWith(Strip(raw.value), "http") ==> a == []
  {
    if raw.None? then []
    else
      var a := Strip(raw.value);
      if StartsWith(a, "http") then [] else a
  }

  function Stripped(raw: Option<string>): string {
    if raw.None? then [] else Strip(raw.value)
  }

  /** The first of the author sources that is not empty, or empty. */
  function Author(page: ResourcePage): string {
    var meta := MetaAuthor(page.metaAuthor);
    if meta != [] then meta
    else
      var ld := Stripped(page.ldAuthor);
      if ld != [] then ld else Stripped(page.relAuthor)
  }

  /**
   * `detect_language_and_author`, with the fetched page as input: the language
   * is the page's `lang`, lower-cased, else "ru" for a Russian-speaking
   * country's domain, else "en"; the author comes only from a page.
   */
  function DetectLanguageAndAuthor(url: string, page: Option<ResourcePage>): (r: (string, string))
    ensures page.None? ==> r.1 == []
    ensures page.None? || page.value.lang.None? ==>
              (r.0 == "ru" <==> RuHost(url)) && (r.0 == "en" <==> !RuHost(url))
    ensures page.Some? && page.value.lang.Some? ==> r.0 == Lower(page.value.lang.value)
    ensures page.Some? && MetaAuthor(page.value.metaAuthor) != [] ==>
              r.1 == MetaAuthor(page.value.metaAuthor)
    ensures page.Some? && MetaAuthor(page.value.metaAuthor) == [] && Stripped(page.value.ldAuthor) != [] ==>
              r.1 == Stripped(page.value.ldAuthor)
    ensures page.Some? && MetaAuthor(page.value.metaAuthor) == [] && Stripped(page.value.ldAuthor) == [] ==>
              r.1 == Stripped(page.value.relAuthor)
  {
    var fallback := if RuHost(url) then "ru" else "en";
    match page
    case None => (fallback, [])
    case Some(p) =>
      var language := if p.lang.Some? then Lower(p.lang.value) else fallback;
      (language, Author(p))
  }

  /** A meta author that looks like a URL gives way to the JSON-LD author, then the `rel` author. */
  lemma UrlAuthorIsDropped(url: string, p: ResourcePage)
    requires p.metaAuthor.Some? && StartsWith(Strip(p.metaAuthor.value), "http")
    ensures DetectLanguageAndAuthor(url, Some(p)).1 ==
              if Stripped(p.ldAuthor) != [] then Stripped(p.ldAuthor) else Stripped(p.relAuthor)
  {
  }

  // ---------------------------------------------------------------- processing a digest

  /** What a fetched digest page yields: its header match and its article. */
  datatype DigestPage = DigestPage(header: Option<HeaderMatch>, article: Option<Article>)

  /** The record a resource becomes, with its digest's number and date. */
  function NewRecord(res: Resource, number: nat, date: string, page: Option<ResourcePage>): Record {
    var (language, author) := DetectLanguageAndAuthor(res.link, page);
    Record(res.link, res.title, author, language, res.description,
           Some(number), Some(date), None, None, None, None)
  }

  /** The new records of a digest, one per resource, in order. */
  function DigestRecords(resources: seq<Resource>, number: nat, date: string,
                         pageOf: string -> Option<ResourcePage>): (recs: seq<Record>)
    ensures |recs| == |resources|
  {
    seq(|resources|, i requires 0 <= i < |resources| =>
      NewRecord(resources[i], number, date, pageOf(resources[i].link)))
  }

  /** The new records carry their resource's fields and their digest's number and date. */
  lemma DigestRecordsFields(resources: seq<Resource>, number: nat, date: string,
                            pageOf: string -> Option<ResourcePage>)
    ensures var recs := DigestRecords(resources, number, date, pageOf);
      forall i | 0 <= i < |recs| ::
        recs[i].link == resources[i].link && recs[i].title == resources[i].title
        && recs[i].description == resources[i].description
        && recs[i].digestNumber == Some(number) && recs[i].digestDate == Some(date)
        && recs[i].date.None? && recs[i].image.None?
  {
    var recs := DigestRecords(resources, number, date, pageOf);
    forall i | 0 <= i < |recs|
      ensures recs[i].link == resources[i].link && recs[i].title == resources[i].title
        && recs[i].description == resources[i].description
        && recs[i].digestNumber == Some(number) && recs[i].digestDate == Some(date)
        && recs[i].date.None? && recs[i].image.None?
    {
      assert recs[i] == NewRecord(resources[i], number, date, pageOf(resources[i].link));
    }
  }

  /** `data` and `progress` of `parse_digests.py`, which `process_digest` updates in place. */
  class DigestCollector {
    var data: seq<Record>
    var progress: map<string, string>

    constructor(data0: seq<Record>, progress0: map<string, string>)
      ensures data == data0 && progress == progress0
    {
      data := data0;
      progress := progress0;
    }

    /** The loop that turns the resources into records. */
    static method BuildRecords(resources: seq<Resource>, number: nat, date: string,
                               pageOf: string -> Option<ResourcePage>)
      returns (newRecords: seq<Record>)
      ensures newRecords == DigestRecords(resources, number, date, pageOf)
    {
      newRecords := [];
      for i := 0 to |resources|
        invariant newRecords == DigestRecords(resources[..i], number, date, pageOf)
      {
        var res := resources[i];
        var (language, author) := DetectLanguageAndAuthor(res.link, pageOf(res.link));
        newRecords := newRecords + [Record(res.link, res.title, author, language, res.description,
                                           Some(number), Some(date), None, None, None, None)];
      }
      assert resources[..|resources|] == resources;
    }

    /**
     * `process_digest`: an unfetched page or an unreadable header fails; an
     * already processed number changes nothing; otherwise the digest's
     * records are appended and its number is marked as processed.
     */
    method ProcessDigest(digestUrl: string, page: Option<DigestPage>,
                         pageOf: string -> Option<ResourcePage>) returns (success: bool)
      modifies this
      ensures success <==> page.Some? && page.value.header.Some?
      ensures !success ==> data == old(data) && progress == old(progress)
      ensures success && DigestKey(page.value.header.value.number) in old(progress) ==>
                data == old(data) && progress == old(progress)
      ensures success && DigestKey(page.value.header.value.number) !in old(progress) ==>
                var h := page.value.header.value;
                data == old(data) + DigestRecords(ResourcesOf(if page.value.article.None? then []
                                                              else page.value.article.value.segments),
                                                  h.number, HeaderDate(h), pageOf)
                && progress == old(progress)[DigestKey(h.number) := digestUrl]
    {
      if page.None? {
        return false;
      }
      var parsed := ParseDigestHeader(page.value.header);
      if parsed.None? {
        return false;
      }
      var (number, date) := parsed.value;
      var key := DigestKey(number);
      if key in progress {
        return true;
      }
      var resources := ExtractResourcesFromDigest(page.value.article);
      if resources == [] {
        progress := progress[key := digestUrl];
        return true;
      }
      var newRecords := BuildRecords(resources, number, date, pageOf);
      data := data + newRecords;
      progress := progress[key := digestUrl];
      return true;
    }
  }
}
