/**
  Discovery of Ollama tags (src/kitt/campaign/gguf_discovery.py), from the tags scraped
  off the library page, and what both kinds of discovery give the campaign planner.
*/
module OllamaDiscovery {
  import opened Basics
  import opened Sorting
  import opened GgufDiscovery
  import opened Globs
  import opened QuantDiscovery
  import opened Planning

  /** `base_tag.split(":")[0]` */
  function BeforeFirstColon(tag: string): string {
    if tag == "" || tag[0] == ':' then "" else [tag[0]] + BeforeFirstColon(tag[1..])
  }

  predicate Contains(s: string, part: string) {
    part <= s || (s != "" && Contains(s[1..], part))
  }

  /** Whether a scraped tag is a variant of the base tag. */
  predicate IsVariant(baseTag: string, tag: string) {
    var size := AfterLastColon(baseTag);
    (':' in baseTag && size != "" && size != "latest" ==> size <= tag)
    && !Contains(tag, "-text-") && !EndsWith(tag, "-text")
  }

  /** A listed tag: the model's name before a wanted variant of the page. */
  ghost predicate IsListed(baseTag: string, page: seq<string>, t: string) {
    exists tag :: tag in page && IsVariant(baseTag, tag) && t == BeforeFirstColon(baseTag) + ":" + tag
  }

  /** What discovery promises for a page; None is a page that could not be read. */
  ghost predicate TagsFor(baseTag: string, page: Option<seq<string>>, tags: seq<string>) {
    if page.None? || forall tag :: tag in page.value ==> !IsVariant(baseTag, tag) then tags == [baseTag]
    else
      && Sorted(LexLess, tags) && Distinct(tags)
      && forall t :: t in tags <==> IsListed(baseTag, page.value, t)
  }

  /** The tags without repetitions, in order of first appearance. */
  method Unique(page: seq<string>) returns (unique: seq<string>)
    ensures Distinct(unique) && forall tag :: tag in unique <==> tag in page
  {
    var seen: set<string> := {};
    unique := [];
    for i := 0 to |page|
      invariant Distinct(unique) && forall tag :: tag in seen <==> tag in unique
      invariant forall tag :: tag in unique <==> tag in page[..i]
    {
      assert page[..i + 1] == page[..i] + [page[i]];
      if page[i] !in seen {
        seen := seen + {page[i]};
        unique := unique + [page[i]];
      }
    }
    assert page[..|page|] == page;
  }

  method Variants(baseTag: string, unique: seq<string>) returns (filtered: seq<string>)
    requires Distinct(unique)
    ensures Distinct(filtered) && forall t :: t in filtered <==> IsListed(baseTag, unique, t)
  {
    hide IsVariant;
    var modelName := BeforeFirstColon(baseTag);
    filtered := [];
    for i := 0 to |unique|
      invariant Distinct(filtered) && forall t :: t in filtered <==> IsListed(baseTag, unique[..i], t)
    {
      ListedSnoc(baseTag, unique[..i], unique[i]);
      assert unique[..i + 1] == unique[..i] + [unique[i]];
      if !IsVariant(baseTag, unique[i]) {
        continue;
      }
      filtered := filtered + [modelName + ":" + unique[i]];
    }
    assert unique[..|unique|] == unique;
  }

  lemma ListedSnoc(baseTag: string, page: seq<string>, tag: string)
    ensures forall t :: IsListed(baseTag, page + [tag], t) <==>
      IsListed(baseTag, page, t) || (IsVariant(baseTag, tag) && t == BeforeFirstColon(baseTag) + ":" + tag)
    ensures tag !in page ==> !IsListed(baseTag, page, BeforeFirstColon(baseTag) + ":" + tag)
  {
    hide IsVariant;
    var head := BeforeFirstColon(baseTag) + ":";
    forall t
      ensures IsListed(baseTag, page + [tag], t) <==>
              IsListed(baseTag, page, t) || (IsVariant(baseTag, tag) && t == head + tag)
    {
      assert tag in page + [tag];
    }
    forall other | other in page && head + other == head + tag
      ensures other == tag
    {
      assert (head + other)[|head|..] == other && (head + tag)[|head|..] == tag;
    }
  }

  method DiscoverOllamaTags(baseTag: string, page: Option<seq<string>>) returns (tags: seq<string>)
    ensures TagsFor(baseTag, page, tags)
  {
    hide IsVariant, LexLess;
    if page.Some? {
      var unique := Unique(page.value);
      if unique != [] {
        var filtered := Variants(baseTag, unique);
        forall t
          ensures IsListed(baseTag, unique, t) <==> IsListed(baseTag, page.value, t)
        {
        }
        if filtered != [] {
          assert filtered[0] in filtered;
          SortListed(filtered);
          return Sort(LexLess, filtered);
        }
        NoneListed(baseTag, page.value);
      }
    }
    return [baseTag];
  }

  lemma NoneListed(baseTag: string, page: seq<string>)
    requires forall t :: !IsListed(baseTag, page, t)
    ensures forall tag :: tag in page ==> !IsVariant(baseTag, tag)
  {
    hide IsVariant;
    forall tag | tag in page
      ensures !IsVariant(baseTag, tag)
    {
      assert !IsListed(baseTag, page, BeforeFirstColon(baseTag) + ":" + tag);
    }
  }

  lemma SortListed(s: seq<string>)
    ensures Sorted(LexLess, Sort(LexLess, s))
    ensures forall t :: t in Sort(LexLess, s) <==> t in s
    ensures Distinct(s) ==> Distinct(Sort(LexLess, s))
  {
    LexOrder();
    SortSorts(LexLess, s);
    SortPermutes(LexLess, s);
    var r := Sort(LexLess, s);
    assert forall t :: t in r <==> t in multiset(r);
    assert forall t :: t in s <==> t in multiset(s);
    if Distinct(s) {
      forall i, j | 0 <= i < j < |r|
        ensures r[i] != r[j]
      {
        AtMostOnce(s, r[i]);
        TwiceCounts(r, i, j);
      }
    }
  }

  lemma TwiceCounts<T>(s: seq<T>, i: nat, j: nat)
    requires i < j < |s|
    ensures s[i] == s[j] ==> multiset(s)[s[i]] >= 2
  {
    assert s == s[..j] + s[j..];
    assert s[..j][i] in multiset(s[..j]) && s[j..][0] in multiset(s[j..]);
  }

  // ----- distinct quantisations -----

  predicate SameQuant(baseTag: string, a: string, b: string) {
    IsVariant(baseTag, a) && IsVariant(baseTag, b) && AfterLastColon(a) == AfterLastColon(b)
  }

  /** No two different wanted variants of the page agree after their last colon. */
  ghost predicate VariantsApart(baseTag: string, page: Option<seq<string>>) {
    page.Some? ==> forall a, b :: a in page.value && b in page.value && SameQuant(baseTag, a, b) ==> a == b
  }

  lemma Listing(baseTag: string, page: seq<string>, t: string) returns (a: string)
    requires IsListed(baseTag, page, t)
    ensures a in page && IsVariant(baseTag, a) && t == BeforeFirstColon(baseTag) + ":" + a
    ensures AfterLastColon(t) == AfterLastColon(a)
  {
    a :| a in page && IsVariant(baseTag, a) && t == BeforeFirstColon(baseTag) + ":" + a;
    AfterLastColonOf(BeforeFirstColon(baseTag), a);
  }

  /** Discovered tags have distinct quantisation names exactly when the page's variants are apart. */
  lemma TagQuantsDistinctExactly(baseTag: string, page: Option<seq<string>>, tags: seq<string>)
    requires TagsFor(baseTag, page, tags)
    ensures Distinct(QuantsOfTags(tags)) <==> VariantsApart(baseTag, page)
  {
    hide IsVariant, LexLess, AfterLastColon, IsListed;
    if page.Some? && exists tag :: tag in page.value && IsVariant(baseTag, tag) {
      if VariantsApart(baseTag, page) {
        forall i, j | 0 <= i < j < |tags|
          ensures AfterLastColon(tags[i]) != AfterLastColon(tags[j])
        {
          assert tags[i] in tags && tags[j] in tags;
          var a := Listing(baseTag, page.value, tags[i]);
          var b := Listing(baseTag, page.value, tags[j]);
        }
      }
      if Distinct(QuantsOfTags(tags)) {
        forall a, b | a in page.value && b in page.value && SameQuant(baseTag, a, b)
          ensures a == b
        {
          SameQuantSameVariant(baseTag, page.value, tags, a, b);
        }
      }
    }
  }

  lemma SameQuantSameVariant(baseTag: string, page: seq<string>, tags: seq<string>, a: string, b: string)
    requires Distinct(QuantsOfTags(tags)) && forall t :: t in tags <==> IsListed(baseTag, page, t)
    requires a in page && b in page && SameQuant(baseTag, a, b)
    ensures a == b
  {
    hide IsVariant, AfterLastColon;
    var head := BeforeFirstColon(baseTag) + ":";
    assert IsListed(baseTag, page, head + a) && IsListed(baseTag, page, head + b);
    var i :| 0 <= i < |tags| && tags[i] == head + a;
    var j :| 0 <= j < |tags| && tags[j] == head + b;
    AfterLastColonOf(BeforeFirstColon(baseTag), a);
    AfterLastColonOf(BeforeFirstColon(baseTag), b);
    assert QuantsOfTags(tags)[i] == QuantsOfTags(tags)[j];
    assert i == j;
    assert (head + a)[|head|..] == a && (head + b)[|head|..] == b;
  }

  /** In particular for colon-free variants. */
  lemma ColonFreeVariantsApart(baseTag: string, page: seq<string>)
    requires forall tag :: tag in page ==> ':' !in tag
    ensures VariantsApart(baseTag, Some(page))
  {
    hide IsVariant, AfterLastColon;
    forall tag | tag in page
      ensures AfterLastColon(tag) == tag
    {
      ColonFree(tag);
    }
  }

  /** A page whose tags collide: two variants that differ before a colon only. */
  lemma ColonsCollide(tags: seq<string>)
    requires TagsFor("m", Some(["a:q", "b:q"]), tags)
    ensures !Distinct(QuantsOfTags(tags))
  {
    hide IsVariant, LexLess, AfterLastColon;
    var a, b, page := "a:q", "b:q", ["a:q", "b:q"];
    assert a in page && b in page && a[0] != b[0];
    VariantOfPlain(a);
    VariantOfPlain(b);
    assert a == "a" + ":" + "q" && b == "b" + ":" + "q";
    AfterLastColonOf("a", "q");
    AfterLastColonOf("b", "q");
    TagQuantsDistinctExactly("m", Some(page), tags);
  }

  lemma VariantOfPlain(tag: string)
    requires |tag| < 5
    ensures IsVariant("m", tag)
  {
    var base := "m";
    assert base[0] != ':' && ':' !in base;
    if Contains(tag, "-text-") {
      PartIsShorter(tag, "-text-");
    }
  }

  lemma {:induction false} PartIsShorter(s: string, part: string)
    requires Contains(s, part)
    ensures |part| <= |s|
  {
    if !(part <= s) {
      PartIsShorter(s[1..], part);
    }
  }

  /**
    Discovery from any listings, and from pages with variants apart, gives what planning
    needs, so run keys are distinct with no other condition on what is discovered.
  */
  lemma DiscoveredKeysDistinct(models: seq<ModelSpec>, engines: seq<EngineSpec>, filter: QuantFilter, d: Discovery,
                               search: Search, listing: string -> Option<seq<string>>,
                               page: string -> Option<seq<string>>)
    requires NamesClean(models, engines)
    requires forall repo :: Discovered(search, listing(repo), d.gguf(repo))
    requires forall tag :: TagsFor(tag, page(tag), d.ollama(tag))
    ensures DiscoveryDistinct(d) <==> forall tag :: VariantsApart(tag, page(tag))
    ensures DiscoveryDistinct(d) ==> Distinct(SpecKeys(Expand(models, filter, d, Plan(models, engines))))
  {
    hide Discovered, TagsFor, QuantsOfTags, NamesOf, NamesClean, Distinct, Expand, Plan, SpecKeys, VariantsApart;
    forall repo
      ensures Distinct(NamesOf(d.gguf(repo)))
    {
      DiscoveredNamesDistinct(search, listing(repo), d.gguf(repo));
    }
    forall tag
      ensures Distinct(QuantsOfTags(d.ollama(tag))) <==> VariantsApart(tag, page(tag))
    {
      TagQuantsDistinctExactly(tag, page(tag), d.ollama(tag));
    }
    if DiscoveryDistinct(d) {
      PlannedKeysDistinct(models, engines, filter, d);
    }
  }
}
