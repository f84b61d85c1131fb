/**
 * `raw/classify.py`: the `Type` of a record, decided by its domain, and its
 * `Tags`, decided by domain rules and keyword rules over its title and
 * description. The domain is the lower-cased host with `www.` removed; how it
 * is taken out of the link is a parameter.
 */
module Classify {
  import opened Wrappers
  import opened Text
  import opened Records

  // ---------------------------------------------------------------- types

  const VideoDomains: set<string> := {"youtube.com", "youtu.be", "vimeo.com", "twitch.tv"}
  const SocialDomains: set<string> := {"twitter.com", "x.com", "reddit.com"}
  const ArticleDomains: set<string> := {
    "80.lv", "habr.com", "dtf.ru", "gamedeveloper.com",
    "newsletter.gamediscover.co", "kotaku.com", "venturebeat.com",
    "wccftech.com", "nplus1.ru", "3dnews.ru", "vc.ru"}
  const RepoDomains: set<string> := {"github.com", "gitlab.com"}
  const StoreDomains: set<string> := {
    "store.steampowered.com", "store.epicgames.com",
    "assetstore.unity.com", "fab.com", "itch.io", "gumroad.com"}

  /** The five values a record's `Type` can take. */
  const Types: set<string> := {"video", "social", "repository", "store", "article"}

  /** Every domain some category names exactly. */
  const KnownDomains: set<string> :=
    VideoDomains + SocialDomains + RepoDomains + StoreDomains + ArticleDomains

  /** `domain` is a subdomain of one of `ds`: it ends with `.` and that domain. */
  predicate UnderAny(domain: string, ds: set<string>) {
    exists d | d in ds :: EndsWith(domain, "." + d)
  }

  /** The domains whose subdomains are looked for, in the order they are tried. */
  const SubdomainChecked: set<string> := VideoDomains + SocialDomains + RepoDomains + StoreDomains

  /**
   * `domain` is named exactly nowhere, is a subdomain of one of `ds`, and of
   * none of the `earlier` domains.
   */
  predicate FirstUnder(domain: string, earlier: set<string>, ds: set<string>) {
    domain !in KnownDomains && !UnderAny(domain, earlier) && UnderAny(domain, ds)
  }

  /**
   * `classify_type`: exact domains first, in the order video, social,
   * repository, store, article; then subdomains of the video, social,
   * repository and store domains in that order; then "article".
   */
  function ClassifyType(domain: string): (t: string)
    ensures t in Types
  {
    if domain in VideoDomains then "video"
    else if domain in SocialDomains then "social"
    else if domain in RepoDomains then "repository"
    else if domain in StoreDomains then "store"
    else if domain in ArticleDomains then "article"
    else if UnderAny(domain, VideoDomains) then "video"
    else if UnderAny(domain, SocialDomains) then "social"
    else if UnderAny(domain, RepoDomains) then "repository"
    else if UnderAny(domain, StoreDomains) then "store"
    else "article"
  }

  /** A domain named exactly by a category gets that category's type. */
  lemma ExactDomainTypes(domain: string)
    ensures domain in VideoDomains ==> ClassifyType(domain) == "video"
    ensures domain in SocialDomains ==> ClassifyType(domain) == "social"
    ensures domain in RepoDomains ==> ClassifyType(domain) == "repository"
    ensures domain in StoreDomains ==> ClassifyType(domain) == "store"
    ensures domain in ArticleDomains ==> ClassifyType(domain) == "article"
  {
  }

  /**
   * A domain named nowhere gets the type of the first category, in the order
   * video, social, repository, store, that it is a subdomain of, else "article".
   */
  lemma SubdomainTypes(domain: string)
    ensures FirstUnder(domain, {}, VideoDomains) ==> ClassifyType(domain) == "video"
    ensures FirstUnder(domain, VideoDomains, SocialDomains) ==> ClassifyType(domain) == "social"
    ensures FirstUnder(domain, VideoDomains + SocialDomains, RepoDomains) ==> ClassifyType(domain) == "repository"
    ensures FirstUnder(domain, VideoDomains + SocialDomains + RepoDomains, StoreDomains) ==> ClassifyType(domain) == "store"
    ensures (domain !in KnownDomains && !UnderAny(domain, SubdomainChecked)) ==> ClassifyType(domain) == "article"
  {
  }

  /** A subdomain of a video domain is a video, unless it is itself named exactly somewhere. */
  lemma VideoSubdomain(x: string, d: string)
    requires d in VideoDomains
    requires x + "." + d !in KnownDomains
    ensures ClassifyType(x + "." + d) == "video"
  {
    var domain := x + "." + d;
    assert domain[|domain| - |"." + d|..] == "." + d;
    assert UnderAny(domain, VideoDomains);
  }

  // ---------------------------------------------------------------- tags

  /** The 19 tags, in the order `classify_tags` tries their rules. */
  const TagOrder: seq<string> := [
    "unreal engine", "unity", "godot", "blender", "houdini", "substance", "maya",
    "zbrush", "opensource", "free", "steam", "playstation", "xbox", "nintendo",
    "ai", "xr", "shaders", "animation", "procedural"]

  /** `\bw\b` at position `i`, for a word `w` made of word characters. */
  predicate WordAt(text: string, i: nat, w: string)
    requires i + |w| <= |text|
  {
    text[i..i + |w|] == w
    && (i == 0 || !IsWordChar(text[i - 1]))
    && (i + |w| == |text| || !IsWordChar(text[i + |w|]))
  }

  /** `re.search(r"\bw\b", text)` found a match. */
  predicate HasWord(text: string, w: string) {
    exists i: nat | i + |w| <= |text| :: WordAt(text, i, w)
  }

  predicate UnrealRule(domain: string, text: string) {
    EndsWith(domain, "unrealengine.com") || domain == "unrealengine.com"
    || Contains(Lower(text), "unreal engine") || Contains(Lower(text), "unreal")
    || HasWord(text, "UE4") || HasWord(text, "UE5")
  }

  predicate UnityRule(domain: string, text: string) {
    domain in {"blog.unity.com", "unity.com"} || EndsWith(domain, ".unity.com")
    || Contains(Lower(text), "unity")
  }

  predicate GodotRule(domain: string, text: string) {
    EndsWith(domain, "godotengine.org") || domain == "godotengine.org"
    || Contains(Lower(text), "godot")
  }

  predicate OpenSourceRule(domain: string, text: string) {
    domain in {"github.com", "gitlab.com"}
    || EndsWith(domain, ".github.com") || EndsWith(domain, ".gitlab.com")
    || Contains(Lower(text), "open source") || Contains(Lower(text), "opensource")
    || Contains(Lower(text), "открытый код") || Contains(Lower(text), "open-source")
  }

  /** `\bfree\b` is matched ignoring case: on the lower-cased text. */
  predicate FreeRule(domain: string, text: string) {
    Contains(Lower(text), "бесплатн") || HasWord(Lower(text), "free")
    || domain == "itch.io" || EndsWith(domain, ".itch.io")
  }

  predicate SteamRule(domain: string, text: string) {
    EndsWith(domain, "steampowered.com") || domain == "steampowered.com"
    || Contains(Lower(text), "steam")
  }

  predicate PlayStationRule(text: string) {
    Contains(Lower(text), "playstation") || Contains(text, "PS4") || Contains(text, "PS5")
  }

  predicate NintendoRule(text: string) {
    Contains(Lower(text), "nintendo") || HasWord(text, "Switch")
  }

  predicate AiRule(text: string) {
    HasWord(text, "AI") || Contains(Lower(text), "machine learning")
    || Contains(Lower(text), "нейросет") || Contains(Lower(text), "искусственн")
  }

  predicate XrRule(text: string) {
    HasWord(text, "VR") || HasWord(text, "AR") || HasWord(text, "XR")
    || Contains(Lower(text), "virtual reality") || Contains(Lower(text), "виртуальн")
  }

  /** Whether each rule fires, in the order of `TagOrder`. */
  function RuleResults(domain: string, text: string): (fired: seq<bool>)
    ensures |fired| == |TagOrder|
  {
    var low := Lower(text);
    [UnrealRule(domain, text),
     UnityRule(domain, text),
     GodotRule(domain, text),
     Contains(low, "blender"),
     Contains(low, "houdini"),
     Contains(low, "substance"),
     HasWord(text, "Maya"),
     Contains(low, "zbrush"),
     OpenSourceRule(domain, text),
     FreeRule(domain, text),
     SteamRule(domain, text),
     PlayStationRule(text),
     Contains(low, "xbox"),
     NintendoRule(text),
     AiRule(text),
     XrRule(text),
     Contains(low, "shader") || Contains(low, "шейдер"),
     Contains(low, "animation") || Contains(low, "анимаци"),
     Contains(low, "procedural") || Contains(low, "процедурн")]
  }

  /** The rule of tag `TagOrder[k]` fires for this domain and text. */
  predicate Fires(k: nat, domain: string, text: string)
    requires k < |TagOrder|
  {
    RuleResults(domain, text)[k]
  }

  /** The names of the first `n` rules that fired, in rule order. */
  function Selected(names: seq<string>, n: nat, fired: seq<bool>): seq<string>
    requires n <= |fired| == |names|
  {
    if n == 0 then []
    else Selected(names, n - 1, fired) + (if fired[n - 1] then [names[n - 1]] else [])
  }

  /** The tag list `classify_tags` builds. */
  function TagsFor(domain: string, text: string): seq<string> {
    Selected(TagOrder, |TagOrder|, RuleResults(domain, text))
  }

  /** One rule of `classify_tags`: append the tag when its rule fires. */
  method ApplyRule(tags: seq<string>, k: nat, domain: string, text: string) returns (r: seq<string>)
    requires k < |TagOrder| && tags == Selected(TagOrder, k, RuleResults(domain, text))
    ensures r == Selected(TagOrder, k + 1, RuleResults(domain, text))
  {
    r := tags;
    if Fires(k, domain, text) {
      r := r + [TagOrder[k]];
    }
  }

  /** `classify_tags`: the rules one after another, in their fixed order. */
  method ClassifyTags(domain: string, text: string) returns (tags: seq<string>)
    ensures tags == TagsFor(domain, text)
  {
    tags := [];
    tags := ApplyRule(tags, 0, domain, text);  // unreal engine
    tags := ApplyRule(tags, 1, domain, text);  // unity
    tags := ApplyRule(tags, 2, domain, text);  // godot
    tags := ApplyRule(tags, 3, domain, text);  // blender
    tags := ApplyRule(tags, 4, domain, text);  // houdini
    tags := ApplyRule(tags, 5, domain, text);  // substance
    tags := ApplyRule(tags, 6, domain, text);  // maya
    tags := ApplyRule(tags, 7, domain, text);  // zbrush
    tags := ApplyRule(tags, 8, domain, text);  // opensource
    tags := ApplyRule(tags, 9, domain, text);  // free
    tags := ApplyRule(tags, 10, domain, text);  // steam
    tags := ApplyRule(tags, 11, domain, text);  // playstation
    tags := ApplyRule(tags, 12, domain, text);  // xbox
    tags := ApplyRule(tags, 13, domain, text);  // nintendo
    tags := ApplyRule(tags, 14, domain, text);  // ai
    tags := ApplyRule(tags, 15, domain, text);  // xr
    tags := ApplyRule(tags, 16, domain, text);  // shaders
    tags := ApplyRule(tags, 17, domain, text);  // animation
    tags := ApplyRule(tags, 18, domain, text);  // procedural
  }

  // ---------------------------------------------------------------- properties of the tags

  lemma TagOrderDistinct()
    ensures Distinct(TagOrder)
  {
    // No two tag names share both their first letter and their length.
    forall i, j | 0 <= i < j < |TagOrder|
      ensures TagOrder[i] != TagOrder[j]
    {
      assert TagOrder[i][0] != TagOrder[j][0] || |TagOrder[i]| != |TagOrder[j]|;
    }
  }

  predicate Distinct(names: seq<string>) {
    forall i, j | 0 <= i < j < |names| :: names[i] != names[j]
  }

  lemma IndexOfDistinct(names: seq<string>, k: nat)
    requires Distinct(names) && k < |names|
    ensures IndexOf(names, names[k]) == k
  {
  }

  /**
   * The first `n` rules give names drawn from the first `n` names, each present
   * exactly when its rule fired.
   */
  lemma {:induction false} SelectedMembers(names: seq<string>, n: nat, fired: seq<bool>)
    requires n <= |fired| == |names| && Distinct(names)
    ensures var t := Selected(names, n, fired);
      (forall i | 0 <= i < |t| :: exists k | 0 <= k < n :: t[i] == names[k])
      && (forall k | 0 <= k < n :: names[k] in t <==> fired[k])
  {
    if n > 0 {
      SelectedMembers(names, n - 1, fired);
      var prev := Selected(names, n - 1, fired);
      var t := Selected(names, n, fired);
      assert forall k | 0 <= k < n - 1 :: names[k] != names[n - 1];
      assert names[n - 1] !in prev;
      forall k | 0 <= k < n
        ensures names[k] in t <==> fired[k]
      {
        if k < n - 1 {
          assert names[k] in t <==> names[k] in prev;
        }
      }
    }
  }

  /** The selected names keep the rule order, so none of them repeats. */
  lemma {:induction false} SelectedOrdered(names: seq<string>, n: nat, fired: seq<bool>)
    requires n <= |fired| == |names| && Distinct(names)
    ensures forall x | x in Selected(names, n, fired) :: x in names && IndexOf(names, x) < n
    ensures forall i, j | 0 <= i < j < |Selected(names, n, fired)| ::
              IndexOf(names, Selected(names, n, fired)[i]) < IndexOf(names, Selected(names, n, fired)[j])
  {
    if n > 0 {
      SelectedOrdered(names, n - 1, fired);
      IndexOfDistinct(names, n - 1);
      var prev := Selected(names, n - 1, fired);
      var t := Selected(names, n, fired);
      if fired[n - 1] {
        assert t == prev + [names[n - 1]];
        forall i, j | 0 <= i < j < |t|
          ensures IndexOf(names, t[i]) < IndexOf(names, t[j])
        {
          assert t[i] == prev[i];
        }
      } else {
        assert t == prev;
      }
    }
  }

  /** `classify_tags` gives rule-ordered, repeat-free tags from the 19 names; each exactly when its rule fires. */
  lemma TagsForProperties(domain: string, text: string)
    ensures var t := TagsFor(domain, text);
      (forall i | 0 <= i < |t| :: t[i] in TagOrder)
      && (forall i, j | 0 <= i < j < |t| :: t[i] != t[j])
      && (forall i, j | 0 <= i < j < |t| :: IndexOf(TagOrder, t[i]) < IndexOf(TagOrder, t[j]))
      && (forall k | 0 <= k < |TagOrder| :: TagOrder[k] in t <==> Fires(k, domain, text))
  {
    TagOrderDistinct();
    SelectedMembers(TagOrder, |TagOrder|, RuleResults(domain, text));
    SelectedOrdered(TagOrder, |TagOrder|, RuleResults(domain, text));
  }

  /** A GitHub or GitLab domain, or a subdomain of one, is always tagged "opensource". */
  lemma RepositoriesAreOpenSource(domain: string, text: string)
    requires domain in RepoDomains || EndsWith(domain, ".github.com") || EndsWith(domain, ".gitlab.com")
    ensures "opensource" in TagsFor(domain, text)
  {
    TagsForProperties(domain, text);
    assert Fires(8, domain, text);
  }

  /** An itch.io domain or subdomain is always tagged "free", whatever the text. */
  lemma ItchIsFree(domain: string, text: string)
    requires domain == "itch.io" || EndsWith(domain, ".itch.io")
    ensures "free" in TagsFor(domain, text)
  {
    TagsForProperties(domain, text);
    assert Fires(9, domain, text);
  }

  /**
   * "unreal engine" is present exactly when the domain ends with
   * `unrealengine.com`, the lower-cased text mentions "unreal", or a whole
   * word "UE4" or "UE5" appears; the other conditions of the rule add nothing.
   */
  lemma UnrealTag(domain: string, text: string)
    ensures "unreal engine" in TagsFor(domain, text) <==>
              EndsWith(domain, "unrealengine.com") || Contains(Lower(text), "unreal")
              || HasWord(text, "UE4") || HasWord(text, "UE5")
  {
    TagsForProperties(domain, text);
    assert TagOrder[0] == "unreal engine";
    assert "unreal" + " engine" == "unreal engine";
    if Contains(Lower(text), "unreal engine") {
      ContainsPrefix(Lower(text), "unreal", " engine");
    }
  }

  // ---------------------------------------------------------------- the loop over the records

  /** A record with its `Type` and `Tags` set; the text is title, space, description. */
  function Classified(r: Record, domain: string): Record {
    r.(recordType := Some(ClassifyType(domain)),
       tags := Some(TagsFor(domain, r.title + " " + r.description)))
  }

  /** The body of the loop of `main`. */
  method ClassifyRecord(r: Record, domain: string) returns (c: Record)
    ensures c == Classified(r, domain)
  {
    var tags := ClassifyTags(domain, r.title + " " + r.description);
    c := r.(recordType := Some(ClassifyType(domain)), tags := Some(tags));
  }

  /**
   * The loop of `main`: every record gets its `Type` and `Tags`. `domainOf`
   * stands for `get_domain`, applied to the record's link.
   */
  method ClassifyAll(data: array<Record>, domainOf: string -> string)
    modifies data
    ensures forall i | 0 <= i < data.Length :: data[i] == Classified(old(data[i]), domainOf(old(data[i]).link))
  {
    ghost var before := data[..];
    for i := 0 to data.Length
      invariant forall k | 0 <= k < i :: data[k] == Classified(before[k], domainOf(before[k].link))
      invariant forall k | i <= k < data.Length :: data[k] == before[k]
    {
      var c := ClassifyRecord(data[i], domainOf(data[i].link));
      ghost var mid := data[..];
      data[i] := c;
      assert forall k | 0 <= k < data.Length && k != i :: data[k] == mid[k];
    }
  }

  /** After the loop every record has a `Type` among the five and a `Tags` list. */
  lemma EveryRecordClassified(r: Record, domain: string)
    ensures var c := Classified(r, domain);
      c.recordType.Some? && c.recordType.value in Types && c.tags.Some?
      && c.link == r.link && c.title == r.title && c.description == r.description
  {
  }

}
