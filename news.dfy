/**
 * The post-processing of fetched news: feed items are cleaned of markup and
 * shortened to a hundred words, the feeds are merged with the first article
 * of each title (ignoring case) winning, and at most ten headlines are kept,
 * preferring those that mention a defence or national keyword.
 *
 * Fetching the feeds and parsing their XML are not modelled; a feed is given
 * here as the sequence of its items' title, description and link texts.
 */
module News {
  import opened Wrappers
  import opened Text

  datatype Article = Article(title: string, description: string, url: string, source: string)

  // ---------------------------------------------------------------------
  // Shortening descriptions
  // ---------------------------------------------------------------------

  const WordLimit := 100
  const Ellipsis := "..."

  /**
   * `truncateTo100Words(text)`: a missing text gives "", a text of at most a
   * hundred space-separated pieces is kept, a longer one is cut after the
   * hundredth piece and marked with "...".
   */
  function TruncateTo100Words(text: Option<string>): string {
    match text
    case None => ""
    case Some(t) =>
      if t == [] then []
      else
        var words := Split(t, ' ');
        if |words| <= WordLimit then t else Join(words[..WordLimit], ' ') + Ellipsis
  }

  lemma TruncateMissing()
    ensures TruncateTo100Words(None) == "" && TruncateTo100Words(Some("")) == ""
  {
  }

  /** A text of at most a hundred pieces comes back unchanged. */
  lemma TruncateKeepsShort(t: string)
    requires |Split(t, ' ')| <= WordLimit
    ensures TruncateTo100Words(Some(t)) == t
  {
  }

  /**
   * A longer text is cut: removing the "..." leaves a prefix of the text
   * that splits into exactly its first hundred pieces.
   */
  lemma TruncateCutsLong(t: string)
    requires |Split(t, ' ')| > WordLimit
    ensures var r := TruncateTo100Words(Some(t));
      |r| >= 3 && r[|r| - 3..] == Ellipsis &&
      StartsWith(t, r[..|r| - 3]) &&
      Split(r[..|r| - 3], ' ') == Split(t, ' ')[..WordLimit]
  {
    var words := Split(t, ' ');
    var kept := Join(words[..WordLimit], ' ');
    assert t != [];
    var r := kept + Ellipsis;
    assert r[..|r| - 3] == kept && r[|r| - 3..] == Ellipsis;
    JoinPrefix(words, WordLimit, ' ');
    SplitJoin(words[..WordLimit], ' ');
  }

  /** However long the text, the kept part never has more than a hundred pieces. */
  lemma TruncateBound(t: string)
    ensures var r := TruncateTo100Words(Some(t));
      |Split(t, ' ')| <= WordLimit ==> r == t
    ensures var r := TruncateTo100Words(Some(t));
      |Split(t, ' ')| > WordLimit ==> |r| >= 3 && |Split(r[..|r| - 3], ' ')| == WordLimit
  {
    if |Split(t, ' ')| > WordLimit {
      TruncateCutsLong(t);
    }
  }

  // ---------------------------------------------------------------------
  // Removing markup
  // ---------------------------------------------------------------------

  /** The position of the first `c` in `s`. */
  function FirstIndexOf(s: string, c: char): (i: nat)
    requires c in s
    ensures i < |s| && s[i] == c && c !in s[..i]
  {
    if s[0] == c then 0
    else
      var i := 1 + FirstIndexOf(s[1..], c);
      assert s[..i] == [s[0]] + s[1..][..i - 1];
      i
  }

  /**
   * `s.replace(/<[^>]*>/g, '')`: from left to right, a '<' that has a '>'
   * somewhere after it is removed together with everything up to the first
   * such '>'; any other character is kept.
   */
  function StripTags(s: string): (r: string)
    ensures |r| <= |s|
    decreases |s|
  {
    if s == [] then []
    else if s[0] == '<' && '>' in s then StripTags(s[FirstIndexOf(s, '>') + 1..])
    else [s[0]] + StripTags(s[1..])
  }

  /** Text before the first '<' is kept as it is. */
  lemma {:induction false} StripTagsKeepsText(a: string, b: string)
    requires '<' !in a
    ensures StripTags(a + b) == a + StripTags(b)
    decreases |a|
  {
    if a != [] {
      var s := a + b;
      assert s[0] == a[0] && s[1..] == a[1..] + b;
      StripTagsKeepsText(a[1..], b);
      assert a == [a[0]] + a[1..];
    } else {
      assert a + b == b;
    }
  }

  /** A '<', then text without '>', then a '>': the whole tag goes. */
  lemma StripTagsDropsTag(t: string, b: string)
    requires '>' !in t
    ensures StripTags("<" + t + ">" + b) == StripTags(b)
  {
    var s := "<" + t + ">" + b;
    assert s[|t| + 1] == '>';
    assert '>' !in s[..|t| + 1] by {
      assert s[..|t| + 1] == "<" + t;
    }
    assert FirstIndexOf(s, '>') == |t| + 1;
    assert s[|t| + 2..] == b;
  }

  /** No '<' is followed, anywhere later, by a '>': nothing left that the pattern matches. */
  predicate NoTag(s: string) {
    forall i, j :: 0 <= i < j < |s| && s[i] == '<' ==> s[j] != '>'
  }

  /** Stripping only removes characters. */
  lemma {:induction false} StripTagsKeepsCharacters(s: string, c: char)
    requires c !in s
    ensures c !in StripTags(s)
    decreases |s|
  {
    if s != [] {
      if s[0] == '<' && '>' in s {
        var k := FirstIndexOf(s, '>') + 1;
        assert forall x :: x in s[k..] ==> x in s;
        StripTagsKeepsCharacters(s[k..], c);
      } else {
        assert forall x :: x in s[1..] ==> x in s;
        StripTagsKeepsCharacters(s[1..], c);
      }
    }
  }

  /** After stripping, no tag is left. */
  lemma {:induction false} StripTagsLeavesNoTag(s: string)
    ensures NoTag(StripTags(s))
    decreases |s|
  {
    if s != [] {
      if s[0] == '<' && '>' in s {
        StripTagsLeavesNoTag(s[FirstIndexOf(s, '>') + 1..]);
      } else {
        var rest := StripTags(s[1..]);
        StripTagsLeavesNoTag(s[1..]);
        if s[0] == '<' {
          assert forall x :: x in s[1..] ==> x in s;
          StripTagsKeepsCharacters(s[1..], '>');
        }
        var r := [s[0]] + rest;
        forall i, j | 0 <= i < j < |r| && r[i] == '<' ensures r[j] != '>' {
          assert r[j] == rest[j - 1];
          if i == 0 {
            assert rest[j - 1] in rest;
          } else {
            assert r[i] == rest[i - 1];
          }
        }
      }
    }
  }

  /** Text without a tag is left as it is, in particular text without '<'. */
  lemma {:induction false} StripTagsOfPlain(s: string)
    requires NoTag(s)
    ensures StripTags(s) == s
    decreases |s|
  {
    if s != [] {
      if s[0] == '<' {
        forall j | 0 <= j < |s| ensures s[j] != '>' { }
      }
      assert NoTag(s[1..]) by {
        forall i, j | 0 <= i < j < |s[1..]| && s[1..][i] == '<' ensures s[1..][j] != '>' {
          assert s[i + 1] == '<';
        }
      }
      StripTagsOfPlain(s[1..]);
      assert [s[0]] + s[1..] == s;
    }
  }

  /** Stripping twice is stripping once. */
  lemma StripTagsIdempotent(s: string)
    ensures StripTags(StripTags(s)) == StripTags(s)
  {
    StripTagsLeavesNoTag(s);
    StripTagsOfPlain(StripTags(s));
  }

  /** A slice of text without a tag has no tag either. */
  lemma NoTagSlice(s: string, a: nat, b: nat)
    requires NoTag(s) && a <= b <= |s|
    ensures NoTag(s[a..b])
  {
    var t := s[a..b];
    forall i, j | 0 <= i < j < |t| && t[i] == '<' ensures t[j] != '>' {
      assert t[i] == s[a + i] && t[j] == s[a + j];
    }
  }

  // ---------------------------------------------------------------------
  // Feed items
  // ---------------------------------------------------------------------

  /** One item of a feed as the XML parser hands it over, with the fallbacks already applied. */
  datatype FeedItem = FeedItem(title: string, description: string, link: string)

  const RssSource := "RSS Feed"

  /** At most a hundred space-separated pieces, or exactly a hundred followed by "...". */
  predicate WithinWordLimit(d: string) {
    || |Split(d, ' ')| <= WordLimit
    || (|d| >= 3 && d[|d| - 3..] == Ellipsis && |Split(d[..|d| - 3], ' ')| == WordLimit)
  }

  /**
   * The article made from one item: a title trimmed and free of markup, a
   * description free of markup and shortened to a hundred pieces, the item's
   * link, and the generic feed source.
   */
  function ArticleOf(item: FeedItem): (a: Article)
    ensures Trimmed(a.title) && NoTag(a.title)
    ensures NoTag(a.description) && WithinWordLimit(a.description)
    ensures a.url == item.link && a.source == RssSource
  {
    CleanedIsClean(item.title);
    CleanedIsClean(item.description);
    TruncateKeepsClean(Trim(StripTags(item.description)));
    Article(
      Trim(StripTags(item.title)),
      TruncateTo100Words(Some(Trim(StripTags(item.description)))),
      item.link,
      RssSource)
  }

  /** An article is kept when neither its title nor its description is empty. */
  predicate Kept(a: Article) {
    a.title != [] && a.description != []
  }

  /** The articles that are kept, in their order. */
  function KeptOnly(s: seq<Article>): (r: seq<Article>)
    ensures |r| <= |s|
  {
    if s == [] then []
    else if Kept(s[0]) then [s[0]] + KeptOnly(s[1..])
    else KeptOnly(s[1..])
  }

  /** One article per item, in order, before filtering. */
  function Articles(items: seq<FeedItem>): (r: seq<Article>)
    ensures |r| == |items|
  {
    seq(|items|, i requires 0 <= i < |items| => ArticleOf(items[i]))
  }

  /** The articles of a feed: one per item, dropping those left without a title or a description. */
  function FeedArticles(items: seq<FeedItem>): (r: seq<Article>)
    ensures |r| <= |items|
  {
    KeptOnly(Articles(items))
  }

  /** Stripping the markup and trimming the ends leaves a trimmed text without tags. */
  lemma CleanedIsClean(t: string)
    ensures Trimmed(Trim(StripTags(t))) && NoTag(Trim(StripTags(t)))
  {
    StripTagsLeavesNoTag(t);
    TrimKeepsNoTag(StripTags(t));
  }

  /** Shortening a text without tags adds none, and leaves at most a hundred pieces before any "...". */
  lemma TruncateKeepsClean(t: string)
    requires NoTag(t)
    ensures var r := TruncateTo100Words(Some(t)); NoTag(r) && WithinWordLimit(r)
  {
    TruncateBound(t);
    if |Split(t, ' ')| > WordLimit {
      TruncateCutsLong(t);
      var r := TruncateTo100Words(Some(t));
      var kept := r[..|r| - 3];
      NoTagSlice(t, 0, |kept|);
      assert t[..|kept|] == kept;
      NoTagThenPlain(kept, Ellipsis);
      assert r == kept + Ellipsis;
    }
  }

  /** Appending text without '>' to a text without tags makes no tag. */
  lemma NoTagThenPlain(x: string, y: string)
    requires NoTag(x) && '>' !in y
    ensures NoTag(x + y)
  {
    var s := x + y;
    forall i, j | 0 <= i < j < |s| && s[i] == '<' ensures s[j] != '>' {
      if j >= |x| {
        assert s[j] == y[j - |x|];
      } else {
        assert s[i] == x[i] && s[j] == x[j];
      }
    }
  }

  /** Trimming cuts a slice out of the text, so it cannot create a tag. */
  lemma TrimKeepsNoTag(s: string)
    requires NoTag(s)
    ensures NoTag(Trim(s))
  {
    var a := TrimStart(s);
    var k := |s| - |a|;
    NoTagSlice(s, k, |s|);
    NoTagSlice(a, 0, |TrimEnd(a)|);
  }

  /** Filtering keeps exactly the articles that are kept. */
  lemma {:induction false} KeptOnlyMembers(s: seq<Article>, a: Article)
    ensures a in KeptOnly(s) <==> a in s && Kept(a)
  {
    if s != [] {
      KeptOnlyMembers(s[1..], a);
      assert s == [s[0]] + s[1..];
    }
  }

  /**
   * A feed keeps exactly the articles made from its items whose cleaned
   * title and description are not empty.
   */
  lemma FeedArticlesMembers(items: seq<FeedItem>, a: Article)
    ensures a in FeedArticles(items) <==> a in Articles(items) && Kept(a)
  {
    KeptOnlyMembers(Articles(items), a);
  }

  // ---------------------------------------------------------------------
  // Merging the feeds
  // ---------------------------------------------------------------------

  /** The key under which a title counts as seen. */
  function TitleKey(a: Article): string {
    Lower(a.title)
  }

  /** The keys of all titles in `s`. */
  function Keys(s: seq<Article>): set<string> {
    if s == [] then {} else Keys(s[..|s| - 1]) + {TitleKey(s[|s| - 1])}
  }

  /**
   * The merged list after the articles of one feed: each article whose title
   * has not been seen is relabelled with the feed's name and appended.
   */
  function Merge(all: seq<Article>, articles: seq<Article>, sourceName: string): seq<Article> {
    if articles == [] then all
    else
      var m := Merge(all, articles[..|articles| - 1], sourceName);
      var a := articles[|articles| - 1];
      if TitleKey(a) in Keys(m) then m else m + [a.(source := sourceName)]
  }

  /** No two articles share a title, ignoring case. */
  predicate DistinctTitles(s: seq<Article>) {
    forall i, j :: 0 <= i < j < |s| ==> TitleKey(s[i]) != TitleKey(s[j])
  }

  lemma {:induction false} KeysMembers(s: seq<Article>, key: string)
    ensures key in Keys(s) <==> exists i :: 0 <= i < |s| && TitleKey(s[i]) == key
  {
    if s != [] {
      var init := s[..|s| - 1];
      KeysMembers(init, key);
      forall i | 0 <= i < |init| ensures init[i] == s[i] { }
    }
  }

  /**
   * The forEach over one feed: `seen` holds the keys of `all`; an article
   * whose key is not in it is appended and its key added.
   */
  method AddFeed(all: seq<Article>, seen: set<string>, articles: seq<Article>, sourceName: string)
    returns (all': seq<Article>, seen': set<string>)
    requires seen == Keys(all)
    ensures all' == Merge(all, articles, sourceName)
    ensures seen' == Keys(all') && seen' == seen + Keys(articles)
  {
    all', seen' := all, seen;
    var i := 0;
    while i < |articles|
      invariant 0 <= i <= |articles|
      invariant all' == Merge(all, articles[..i], sourceName)
      invariant seen' == Keys(all') && seen' == seen + Keys(articles[..i])
    {
      var a := articles[i];
      assert articles[..i + 1][..i] == articles[..i];
      if TitleKey(a) !in seen' {
        var labelled := a.(source := sourceName);
        all' := all' + [labelled];
        seen' := seen' + {TitleKey(a)};
        assert all'[..|all'| - 1] == Merge(all, articles[..i], sourceName);
      }
      i := i + 1;
    }
    assert articles[..i] == articles;
  }

  /** Articles already merged are never replaced: the first article of a title wins. */
  lemma {:induction false} MergeExtends(all: seq<Article>, articles: seq<Article>, sourceName: string)
    ensures var r := Merge(all, articles, sourceName);
      |all| <= |r| && r[..|all|] == all
  {
    if articles != [] {
      MergeExtends(all, articles[..|articles| - 1], sourceName);
    }
  }

  /** Merging never lets two articles with the same title (ignoring case) in. */
  lemma {:induction false} MergeDistinct(all: seq<Article>, articles: seq<Article>, sourceName: string)
    requires DistinctTitles(all)
    ensures DistinctTitles(Merge(all, articles, sourceName))
  {
    if articles != [] {
      var m := Merge(all, articles[..|articles| - 1], sourceName);
      MergeDistinct(all, articles[..|articles| - 1], sourceName);
      var a := articles[|articles| - 1];
      if TitleKey(a) !in Keys(m) {
        KeysMembers(m, TitleKey(a));
        var r := m + [a.(source := sourceName)];
        forall i, j | 0 <= i < j < |r| ensures TitleKey(r[i]) != TitleKey(r[j]) {
          if j == |m| {
            assert r[i] == m[i];
          } else {
            assert r[i] == m[i] && r[j] == m[j];
          }
        }
      }
    }
  }

  /** Every title of the feed is seen afterwards, and every appended article is one of the feed's, relabelled. */
  lemma {:induction false} MergeCovers(all: seq<Article>, articles: seq<Article>, sourceName: string)
    ensures Keys(Merge(all, articles, sourceName)) == Keys(all) + Keys(articles)
    ensures var r := Merge(all, articles, sourceName);
      forall i :: |all| <= i < |r| ==> exists k :: 0 <= k < |articles| && r[i] == articles[k].(source := sourceName)
  {
    if articles != [] {
      var init := articles[..|articles| - 1];
      var m := Merge(all, init, sourceName);
      MergeCovers(all, init, sourceName);
      var a := articles[|articles| - 1];
      var r := Merge(all, articles, sourceName);
      forall i | |all| <= i < |r| ensures exists k :: 0 <= k < |articles| && r[i] == articles[k].(source := sourceName) {
        if i < |m| {
          var k :| 0 <= k < |init| && m[i] == init[k].(source := sourceName);
          assert r[i] == m[i] && init[k] == articles[k];
        } else {
          assert r[i] == articles[|articles| - 1].(source := sourceName);
        }
      }
    }
  }

  /** The feed article at `k` brings a title not seen before: not among `all`, and not earlier in the feed. */
  predicate FirstNew(all: seq<Article>, articles: seq<Article>, k: nat)
    requires k < |articles|
  {
    TitleKey(articles[k]) !in Keys(all) && TitleKey(articles[k]) !in Keys(articles[..k])
  }

  /** The positions in the feed of the articles that bring a new title, in feed order. */
  function NewPositions(all: seq<Article>, articles: seq<Article>): (ps: seq<nat>)
    ensures forall i :: 0 <= i < |ps| ==> ps[i] < |articles|
  {
    if articles == [] then []
    else
      var last := |articles| - 1;
      NewPositions(all, articles[..last]) + (if FirstNew(all, articles, last) then [last] else [])
  }

  /** The feed articles at positions `ps`, relabelled with the feed's name. */
  function Picked(articles: seq<Article>, ps: seq<nat>, sourceName: string): (r: seq<Article>)
    requires forall i :: 0 <= i < |ps| ==> ps[i] < |articles|
    ensures |r| == |ps|
  {
    seq(|ps|, i requires 0 <= i < |ps| => articles[ps[i]].(source := sourceName))
  }

  /** The new positions are increasing, and they are exactly the feed positions that bring a new title. */
  lemma {:induction false} NewPositionsAre(all: seq<Article>, articles: seq<Article>)
    ensures var ps := NewPositions(all, articles);
      && (forall i, j :: 0 <= i < j < |ps| ==> ps[i] < ps[j])
      && (forall k :: 0 <= k < |articles| ==> (k in ps <==> FirstNew(all, articles, k)))
  {
    if articles != [] {
      var last := |articles| - 1;
      var init := articles[..last];
      NewPositionsAre(all, init);
      forall k | 0 <= k < last ensures FirstNew(all, articles, k) == FirstNew(all, init, k) {
        assert articles[k] == init[k] && articles[..k] == init[..k];
      }
    }
  }

  /**
   * Merging a feed appends, after the articles already merged, the feed's
   * articles that bring a new title, in feed order and relabelled: of two
   * articles with the same title the earlier one is kept.
   */
  lemma {:induction false} MergeKeepsFirstNew(all: seq<Article>, articles: seq<Article>, sourceName: string)
    ensures Merge(all, articles, sourceName) == all + Picked(articles, NewPositions(all, articles), sourceName)
  {
    if articles != [] {
      var last := |articles| - 1;
      var init := articles[..last];
      var ps := NewPositions(all, init);
      var m := Merge(all, init, sourceName);
      MergeKeepsFirstNew(all, init, sourceName);
      MergeCovers(all, init, sourceName);
      PickedOfPrefix(articles, init, ps, sourceName);
      var a := articles[last];
      assert FirstNew(all, articles, last) <==> TitleKey(a) !in Keys(m);
      if FirstNew(all, articles, last) {
        PickedSnoc(articles, ps, last, sourceName);
        AppendAssoc(all, Picked(articles, ps, sourceName), [a.(source := sourceName)]);
      }
    }
  }

  lemma PickedOfPrefix(articles: seq<Article>, init: seq<Article>, ps: seq<nat>, sourceName: string)
    requires |init| <= |articles| && init == articles[..|init|]
    requires forall i :: 0 <= i < |ps| ==> ps[i] < |init|
    ensures Picked(articles, ps, sourceName) == Picked(init, ps, sourceName)
  {
    forall i | 0 <= i < |ps| ensures articles[ps[i]] == init[ps[i]] { }
  }

  lemma PickedSnoc(articles: seq<Article>, ps: seq<nat>, k: nat, sourceName: string)
    requires forall i :: 0 <= i < |ps| ==> ps[i] < |articles|
    requires k < |articles|
    ensures Picked(articles, ps + [k], sourceName) == Picked(articles, ps, sourceName) + [articles[k].(source := sourceName)]
  {
  }

  // ---------------------------------------------------------------------
  // Choosing the headlines
  // ---------------------------------------------------------------------

  const Keywords: seq<string> := [
    "defence", "defense", "military", "army", "navy", "air force",
    "national", "security", "border", "government", "india", "indian"]

  const HeadlineLimit := 10

  /** The lower-cased title and description mention one of the keywords. */
  predicate Relevant(a: Article) {
    exists k :: 0 <= k < |Keywords| && Contains(Lower(a.title + " " + a.description), Keywords[k])
  }

  function FilterRelevant(s: seq<Article>): (r: seq<Article>)
    ensures |r| <= |s|
  {
    if s == [] then []
    else if Relevant(s[0]) then [s[0]] + FilterRelevant(s[1..])
    else FilterRelevant(s[1..])
  }

  lemma {:induction false} FilterRelevantMembers(s: seq<Article>, a: Article)
    ensures a in FilterRelevant(s) <==> a in s && Relevant(a)
  {
    if s != [] {
      FilterRelevantMembers(s[1..], a);
      assert a in s <==> a == s[0] || a in s[1..];
    }
  }

  /** The filter keeps order: filtering a concatenation filters each part. */
  lemma {:induction false} FilterRelevantAppend(a: seq<Article>, b: seq<Article>)
    ensures FilterRelevant(a + b) == FilterRelevant(a) + FilterRelevant(b)
  {
    if a == [] {
      assert a + b == b;
    } else {
      assert (a + b)[0] == a[0] && (a + b)[1..] == a[1..] + b;
      FilterRelevantAppend(a[1..], b);
    }
  }

  /** One article is kept exactly when it is relevant. */
  lemma FilterRelevantOne(a: Article)
    ensures FilterRelevant([a]) == if Relevant(a) then [a] else []
  {
    assert [a][1..] == [];
  }

  /** Nothing is relevant exactly when the filter keeps nothing. */
  lemma {:induction false} FilterRelevantEmpty(s: seq<Article>)
    ensures FilterRelevant(s) == [] <==> forall a :: a in s ==> !Relevant(a)
  {
    if s != [] {
      FilterRelevantEmpty(s[1..]);
      assert forall a :: a in s <==> a == s[0] || a in s[1..];
    }
  }

  /**
   * The relevant articles, or all of them when none is relevant, cut to the
   * first ten.
   */
  function SelectHeadlines(all: seq<Article>): seq<Article> {
    var relevant := FilterRelevant(all);
    var chosen := if |relevant| > 0 then relevant else all;
    if |chosen| <= HeadlineLimit then chosen else chosen[..HeadlineLimit]
  }

  /**
   * At most ten headlines, and none only when there was no article; when
   * some article is relevant every headline is, otherwise the headlines are
   * the first articles in merged order.
   */
  lemma SelectHeadlinesContents(all: seq<Article>)
    ensures |SelectHeadlines(all)| <= HeadlineLimit
    ensures SelectHeadlines(all) == [] <==> all == []
    ensures forall a :: a in SelectHeadlines(all) ==> a in all
    ensures (exists a :: a in all && Relevant(a)) ==> forall a :: a in SelectHeadlines(all) ==> Relevant(a)
    ensures (forall a :: a in all ==> !Relevant(a)) ==>
      SelectHeadlines(all) == all[..if |all| <= HeadlineLimit then |all| else HeadlineLimit]
    ensures (exists a :: a in all && Relevant(a)) ==>
      var relevant := FilterRelevant(all);
      SelectHeadlines(all) == relevant[..if |relevant| <= HeadlineLimit then |relevant| else HeadlineLimit]
  {
    var relevant := FilterRelevant(all);
    forall a ensures a in relevant <==> a in all && Relevant(a) {
      FilterRelevantMembers(all, a);
    }
    var r := SelectHeadlines(all);
    forall a | a in r ensures a in relevant || a in all {
      var chosen := if |relevant| > 0 then relevant else all;
      if |chosen| > HeadlineLimit {
        assert a in chosen[..HeadlineLimit];
        var i :| 0 <= i < HeadlineLimit && chosen[..HeadlineLimit][i] == a;
        assert a == chosen[i];
      }
    }
    FilterRelevantEmpty(all);
    if all != [] && relevant == [] {
      assert all[0] in all;
    }
  }

  // ---------------------------------------------------------------------
  // The whole collection
  // ---------------------------------------------------------------------

  /** A feed by the name its articles are credited to; a feed that failed to load has no items. */
  datatype Feed = Feed(name: string, items: seq<FeedItem>)

  /** All feeds merged in the order they are fetched. */
  function MergeFeeds(feeds: seq<Feed>): seq<Article> {
    if feeds == [] then []
    else
      var last := feeds[|feeds| - 1];
      Merge(MergeFeeds(feeds[..|feeds| - 1]), FeedArticles(last.items), last.name)
  }

  /** The merged list never holds two articles with the same title, ignoring case. */
  lemma {:induction false} MergeFeedsDistinct(feeds: seq<Feed>)
    ensures DistinctTitles(MergeFeeds(feeds))
  {
    if feeds != [] {
      var last := feeds[|feeds| - 1];
      MergeFeedsDistinct(feeds[..|feeds| - 1]);
      MergeDistinct(MergeFeeds(feeds[..|feeds| - 1]), FeedArticles(last.items), last.name);
    }
  }

  /** Adding the next feed to the merged list of the ones before it. */
  lemma MergeFeedsNext(feeds: seq<Feed>, i: nat)
    requires i < |feeds|
    ensures MergeFeeds(feeds[..i + 1]) == Merge(MergeFeeds(feeds[..i]), FeedArticles(feeds[i].items), feeds[i].name)
  {
    assert feeds[..i + 1][..i] == feeds[..i];
  }

  /** The collection run: every feed's articles are added in turn, then the headlines are chosen. */
  method CollectHeadlines(feeds: seq<Feed>) returns (result: seq<Article>)
    ensures result == SelectHeadlines(MergeFeeds(feeds))
  {
    var all: seq<Article> := [];
    var seen: set<string> := {};
    var i := 0;
    while i < |feeds|
      invariant 0 <= i <= |feeds|
      invariant all == MergeFeeds(feeds[..i]) && seen == Keys(all)
    {
      MergeFeedsNext(feeds, i);
      all, seen := AddFeed(all, seen, FeedArticles(feeds[i].items), feeds[i].name);
      i := i + 1;
    }
    assert feeds[..i] == feeds;
    result := SelectHeadlines(all);
  }
}
