/** The tracking slug of a booking: which newsletter sent the visitor.

    The page reads the referrer, parses it as a URL and reads the `newsletter` query
    parameter of its own address. URL parsing is not modelled: the caller supplies the
    referrer's `pathname` (`None` when `new URL(referrer)` throws) and the value of the
    query parameter (`None` when it is absent). `Date.now()` becomes the parameter `now`. */
module Slug {
  import opened JsText

  /** Only referrers that mention this site are looked at. */
  const ReferrerSite := "sponsorindex.com"
  /** The first path segment of a newsletter page on that site. */
  const NewsletterSection := "top-newsletters"
  /** The prefix of the slug made up when nothing identifies the newsletter. */
  const FallbackPrefix := "newsletter-"

  /** A referrer is worth parsing when it is non-empty and mentions the site. */
  predicate ReferrerMentionsSite(referrer: string) {
    referrer != "" && Includes(referrer, ReferrerSite)
  }

  /** `pathname.split('/').filter(segment => segment)`. */
  function PathSegments(pathname: string): (segs: seq<string>)
    ensures forall k :: 0 <= k < |segs| ==>
      segs[k] != "" && '/' !in segs[k] && segs[k] in Split(pathname, '/')
    ensures multiset(segs) == multiset(Split(pathname, '/'))["" := 0]
  {
    NonEmpty(Split(pathname, '/'))
  }

  /** The first tier: the second path segment of a newsletter page on the site.
      `None` means the tier falls through: no referrer, another site, a referrer that is
      not a URL, or a path that is not under the newsletter section. */
  function ReferrerSlug(referrer: string, pathname: Option<string>): (r: Option<string>)
    ensures r.Some? ==> ReferrerMentionsSite(referrer) && pathname.Some?
    ensures r.Some? ==> r.value != "" && '/' !in r.value && r.value in Split(pathname.value, '/')
    ensures r.Some? ==> var segs := PathSegments(pathname.value);
      |segs| >= 2 && segs[0] == NewsletterSection && segs[1] == r.value
    ensures ReferrerMentionsSite(referrer) && pathname.Some? &&
      |PathSegments(pathname.value)| >= 2 && PathSegments(pathname.value)[0] == NewsletterSection
      ==> r == Some(PathSegments(pathname.value)[1])
  {
    if ReferrerMentionsSite(referrer) && pathname.Some? then
      var segs := PathSegments(pathname.value);
      if |segs| >= 2 && segs[0] == NewsletterSection then Some(segs[1]) else None
    else None
  }

  /** `generateUrlSlug()`: the referrer tier, else a non-empty `newsletter` query value,
      else `"newsletter-"` followed by the time in milliseconds. */
  function GenerateUrlSlug(referrer: string, pathname: Option<string>,
                           newsletter: Option<string>, now: nat): (slug: string)
    ensures slug != ""
  {
    match ReferrerSlug(referrer, pathname)
    case Some(s) => s
    case None =>
      if newsletter.Some? && newsletter.value != "" then newsletter.value
      else FallbackPrefix + Decimal(now)
  }

  /** The pieces of `<name><rest>` start with `<name>` when `<rest>` is empty or starts a new piece. */
  lemma SplitNameThenRest(name: string, rest: string) returns (tail: seq<string>)
    requires '/' !in name
    requires rest == "" || rest[0] == '/'
    ensures Split(name + rest, '/') == [name] + tail
  {
    SplitWithoutSeparator(name, '/');
    if rest == "" {
      assert name + rest == name;
      tail := [];
    } else {
      assert name + rest == name + ['/'] + rest[1..];
      SplitAtSeparator(name, rest[1..], '/');
      tail := Split(rest[1..], '/');
    }
  }

  /** The pieces of a path `/<first>/<name><rest>`: an empty one before the leading `/`,
      `<first>`, `<name>`, then whatever follows. */
  lemma PathPieces(pathname: string, first: string, name: string, rest: string)
    returns (tail: seq<string>)
    requires '/' !in first && '/' !in name
    requires rest == "" || rest[0] == '/'
    requires pathname == ['/'] + first + ['/'] + name + rest
    ensures Split(pathname, '/') == ["", first, name] + tail
  {
    tail := SplitNameThenRest(name, rest);
    var x := first + ['/'] + (name + rest);
    SplitAtSeparator(first, name + rest, '/');
    SplitWithoutSeparator(first, '/');
    assert Split(x, '/') == [first] + ([name] + tail);
    assert pathname == [] + ['/'] + x;
    SplitAtSeparator([], x, '/');
    assert Split(pathname, '/') == [""] + ([first] + ([name] + tail));
  }

  /** The non-empty segments of such a path start with `<first>` and `<name>`. */
  lemma PathSegmentsOfPieces(pathname: string, first: string, name: string, rest: string)
    requires first != "" && name != ""
    requires '/' !in first && '/' !in name
    requires rest == "" || rest[0] == '/'
    requires pathname == ['/'] + first + ['/'] + name + rest
    ensures |PathSegments(pathname)| >= 2
    ensures PathSegments(pathname)[0] == first && PathSegments(pathname)[1] == name
  {
    var tail := PathPieces(pathname, first, name, rest);
    var parts := ["", first, name] + tail;
    assert parts[1..] == [first, name] + tail;
    assert parts[1..][1..] == [name] + tail;
    assert parts[1..][1..][1..] == tail;
    assert NonEmpty(parts) == NonEmpty(parts[1..]);
    assert NonEmpty(parts[1..]) == [first] + NonEmpty(parts[1..][1..]);
    assert NonEmpty(parts[1..][1..]) == [name] + NonEmpty(tail);
  }

  /** A newsletter page's address yields the newsletter's name: for a path
      `/top-newsletters/<name>` possibly followed by `/...`, the slug is `<name>`,
      whatever the query parameter and the clock say. */
  lemma NewsletterPageGivesName(referrer: string, pathname: string, name: string,
                                rest: string, newsletter: Option<string>, now: nat)
    requires ReferrerMentionsSite(referrer)
    requires name != "" && '/' !in name
    requires rest == "" || rest[0] == '/'
    requires pathname == "/" + NewsletterSection + "/" + name + rest
    ensures GenerateUrlSlug(referrer, Some(pathname), newsletter, now) == name
  {
    PathSegmentsOfPieces(pathname, NewsletterSection, name, rest);
  }

  /** Filtering skips the empty piece before a leading `/` and keeps the next one. */
  lemma SkipThenKeep(first: string, tail: seq<string>)
    requires first != ""
    ensures NonEmpty([""] + ([first] + tail)) == [first] + NonEmpty(tail)
  {
    var parts := [""] + ([first] + tail);
    assert parts[1..] == [first] + tail;
    assert parts[1..][1..] == tail;
  }

  /** The first segment of a path `/<first>` possibly followed by `/...` is `<first>`. */
  lemma FirstSegment(first: string, rest: string)
    requires first != "" && '/' !in first
    requires rest == "" || rest[0] == '/'
    ensures var segs := PathSegments("/" + first + rest); |segs| >= 1 && segs[0] == first
  {
    var tail := SplitNameThenRest(first, rest);
    assert Split("/" + first + rest, '/') == [""] + ([first] + tail) by {
      assert "/" + first + rest == [] + ['/'] + (first + rest);
      SplitAtSeparator([], first + rest, '/');
    }
    SkipThenKeep(first, tail);
  }

  /** A page of the site outside the newsletter section names no newsletter: for a path
      `/<first>` possibly followed by `/...`, with `<first>` not `top-newsletters`, the slug
      is what the query value or the clock gives, as if the referrer had not been parsed. */
  lemma OtherPageFallsThrough(referrer: string, first: string, rest: string,
                              newsletter: Option<string>, now: nat)
    requires first != "" && '/' !in first && first != NewsletterSection
    requires rest == "" || rest[0] == '/'
    ensures GenerateUrlSlug(referrer, Some("/" + first + rest), newsletter, now)
         == GenerateUrlSlug(referrer, None, newsletter, now)
  {
    FirstSegment(first, rest);
  }

  /** Every newsletter page answers the first tier, however its path is slashed: when the
      non-empty segments start with `top-newsletters`, the slug is the next segment. */
  lemma ReferrerTierAnswers(referrer: string, pathname: string,
                            newsletter: Option<string>, now: nat)
    requires ReferrerMentionsSite(referrer)
    requires |PathSegments(pathname)| >= 2 && PathSegments(pathname)[0] == NewsletterSection
    ensures GenerateUrlSlug(referrer, Some(pathname), newsletter, now) == PathSegments(pathname)[1]
  {
  }

  /** When the referrer tier falls through, a non-empty query value is the slug, verbatim. */
  lemma QueryTierUsesValue(referrer: string, pathname: Option<string>, value: string, now: nat)
    requires ReferrerSlug(referrer, pathname).None?
    requires value != ""
    ensures GenerateUrlSlug(referrer, pathname, Some(value), now) == value
  {
  }

  /** A referrer that does not mention the site is never parsed: the slug comes from the
      query value or the clock, whatever its path is. */
  lemma OtherSiteFallsThrough(referrer: string, pathname: Option<string>,
                              newsletter: Option<string>, now: nat)
    requires !Includes(referrer, ReferrerSite)
    ensures GenerateUrlSlug(referrer, pathname, newsletter, now)
         == GenerateUrlSlug(referrer, None, newsletter, now)
  {
  }

  /** The last tier stamps the slug with the clock: the slug is `newsletter-` followed by
      decimal digits that read back as `now`, written without leading zeros, so two
      different instants give two slugs. */
  lemma {:induction false} FallbackCarriesTime(referrer: string, pathname: Option<string>,
                                               newsletter: Option<string>, now: nat)
    requires ReferrerSlug(referrer, pathname).None?
    requires newsletter.None? || newsletter.value == ""
    ensures var slug := GenerateUrlSlug(referrer, pathname, newsletter, now);
      |slug| > |FallbackPrefix| && slug[..|FallbackPrefix|] == FallbackPrefix &&
      AllDigits(slug[|FallbackPrefix|..]) && ParseDecimal(slug[|FallbackPrefix|..]) == now &&
      (slug[|FallbackPrefix|] == '0' ==> |slug| == |FallbackPrefix| + 1)
  {
    var slug := GenerateUrlSlug(referrer, pathname, newsletter, now);
    assert slug[|FallbackPrefix|..] == Decimal(now);
    DecimalRoundTrip(now);
    DecimalDigits(now);
    DecimalNoLeadingZero(now);
  }
}
