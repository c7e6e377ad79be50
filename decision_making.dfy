/**
 * The site selector of the Web Wanderer extension, `DecisionMaker.chooseWebsite`
 * in decision_making.js. It builds the effective category list (the user's
 * categories, then the entries of an optional LLM expansion that are new up
 * to case), keeps the catalog sites of those categories, and draws at most
 * five times from a shrinking pool, preferring a site whose URL is not in the
 * visit history.
 *
 * The collaborators are parameters: the API key read from storage, the
 * expansion call `LLMService.expandCategories` (which may throw), the default
 * category list, and the values `Math.random()` returns, one per draw.
 */
module DecisionMaking {
  import opened Runtime
  import opened Strings

  /** An entry of the site database; `category` is "" when the entry has none. */
  datatype Site = Site(url: string, category: string)

  /** The `reason` tag of a selection. */
  datatype Reason = Success | SuccessHistory | NoSites | Error

  /** The object `{ decision, reason, message? }` that `chooseWebsite` resolves to. */
  datatype Selection = Selection(decision: Option<string>, reason: Reason, message: Option<string>)

  const MaxAttempts: nat := 5
  const DatabaseUnavailable := "Website database unavailable."
  const SelectionFailed := "Selection failed after filtering."

  // ---------------------------------------------------------------------
  // Category aggregation
  // ---------------------------------------------------------------------

  /** `cats.some(ec => ec.toLowerCase() === c.toLowerCase())` */
  predicate HasCategory(cats: seq<string>, c: string)
  {
    exists i | 0 <= i < |cats| :: Lower(cats[i]) == Lower(c)
  }

  /** The effective list after visiting `expanded` in order, appending each entry no current entry matches up to case. */
  function AddExpansion(effective: seq<string>, expanded: seq<string>): seq<string>
    decreases |expanded|
  {
    if expanded == [] then effective
    else AddExpansion(if HasCategory(effective, expanded[0]) then effective else effective + [expanded[0]], expanded[1..])
  }

  /** The expansion call is made only with an API key and a non-empty base list. */
  predicate ExpansionAttempted(categories: seq<string>, apiKey: Option<string>)
  {
    Present(apiKey) && |categories| > 0
  }

  /** The effective category list `chooseWebsite` filters with. */
  function EffectiveCategories(categories: seq<string>, apiKey: Option<string>,
                               expand: (string, seq<string>) -> Attempt<seq<string>>,
                               defaults: seq<string>): seq<string>
  {
    var grown :=
      if ExpansionAttempted(categories, apiKey) then
        match expand(apiKey.value, categories)
        case Returned(expanded) => if |expanded| > 0 then AddExpansion(categories, expanded) else categories
        case Threw(_) => categories
      else categories;
    if grown == [] then defaults else grown
  }

  /** Aggregation keeps the list it starts from as a prefix, in order and with its casing. */
  lemma {:induction false} AddExpansionKeepsPrefix(effective: seq<string>, expanded: seq<string>)
    ensures |AddExpansion(effective, expanded)| >= |effective|
    ensures AddExpansion(effective, expanded)[..|effective|] == effective
    decreases |expanded|
  {
    if expanded != [] {
      var next := if HasCategory(effective, expanded[0]) then effective else effective + [expanded[0]];
      AddExpansionKeepsPrefix(next, expanded[1..]);
      assert AddExpansion(effective, expanded)[..|next|][..|effective|] == next[..|effective|];
    }
  }

  /** A list extending `effective` still has every category `effective` has. */
  lemma HasCategoryInPrefix(effective: seq<string>, longer: seq<string>, c: string)
    requires |longer| >= |effective| && longer[..|effective|] == effective
    requires HasCategory(effective, c)
    ensures HasCategory(longer, c)
  {
    var i :| 0 <= i < |effective| && Lower(effective[i]) == Lower(c);
    assert longer[i] == effective[i];
  }

  /** After aggregation every expansion entry is matched, up to case, by some entry. */
  lemma {:induction false} AddExpansionCovers(effective: seq<string>, expanded: seq<string>)
    ensures forall k :: 0 <= k < |expanded| ==> HasCategory(AddExpansion(effective, expanded), expanded[k])
    decreases |expanded|
  {
    if expanded != [] {
      var next := if HasCategory(effective, expanded[0]) then effective else effective + [expanded[0]];
      var r := AddExpansion(effective, expanded);
      AddExpansionCovers(next, expanded[1..]);
      AddExpansionKeepsPrefix(next, expanded[1..]);
      if !HasCategory(effective, expanded[0]) {
        assert next[|effective|] == expanded[0];
      }
      assert HasCategory(next, expanded[0]);
      HasCategoryInPrefix(next, r, expanded[0]);
      forall k | 1 <= k < |expanded| ensures HasCategory(r, expanded[k]) {
        assert expanded[k] == expanded[1..][k - 1];
      }
    }
  }

  /**
   * Every entry aggregation appends comes from the expansion and matches no
   * entry before it, up to case: the first casing seen is the one kept.
   */
  lemma {:induction false} AddExpansionAppendsOnlyNew(effective: seq<string>, expanded: seq<string>)
    ensures forall k :: |effective| <= k < |AddExpansion(effective, expanded)| ==>
      AddExpansion(effective, expanded)[k] in expanded
      && !HasCategory(AddExpansion(effective, expanded)[..k], AddExpansion(effective, expanded)[k])
    decreases |expanded|
  {
    if expanded != [] {
      var next := if HasCategory(effective, expanded[0]) then effective else effective + [expanded[0]];
      var r := AddExpansion(effective, expanded);
      AddExpansionAppendsOnlyNew(next, expanded[1..]);
      AddExpansionKeepsPrefix(next, expanded[1..]);
      forall k | |effective| <= k < |r| ensures r[k] in expanded && !HasCategory(r[..k], r[k]) {
        if k < |next| {
          assert k == |effective| && next == effective + [expanded[0]];
          assert r[k] == next[k] == expanded[0];
          assert r[..k] == effective;
        } else {
          assert r[k] in expanded[1..];
        }
      }
    }
  }

  /** Without an API key or without base categories, the expansion is never consulted. */
  lemma ExpansionNeedsKeyAndBase(categories: seq<string>, apiKey: Option<string>,
                                 expand: (string, seq<string>) -> Attempt<seq<string>>,
                                 other: (string, seq<string>) -> Attempt<seq<string>>,
                                 defaults: seq<string>)
    requires !Present(apiKey) || categories == []
    ensures EffectiveCategories(categories, apiKey, expand, defaults) == EffectiveCategories(categories, apiKey, other, defaults)
    ensures EffectiveCategories(categories, apiKey, expand, defaults) == if categories == [] then defaults else categories
  {
  }

  /** An expansion that throws or returns nothing leaves the base list as it was. */
  lemma ExpansionFailureKeepsBase(categories: seq<string>, apiKey: Option<string>,
                                  expand: (string, seq<string>) -> Attempt<seq<string>>,
                                  defaults: seq<string>)
    requires categories != []
    requires Present(apiKey) ==> expand(apiKey.value, categories).Threw? || expand(apiKey.value, categories).value == []
    ensures EffectiveCategories(categories, apiKey, expand, defaults) == categories
  {
  }

  /**
   * With base categories, the effective list starts with them unchanged
   * (they are not deduplicated), and whatever follows comes from a successful
   * expansion, is new up to case, and covers every expansion entry.
   */
  lemma EffectiveExtendsBase(categories: seq<string>, apiKey: Option<string>,
                             expand: (string, seq<string>) -> Attempt<seq<string>>,
                             defaults: seq<string>)
    requires categories != []
    ensures var effective := EffectiveCategories(categories, apiKey, expand, defaults);
      && |effective| >= |categories| && effective[..|categories|] == categories
      && (|effective| > |categories| ==> Present(apiKey) && expand(apiKey.value, categories).Returned?)
      && forall k :: |categories| <= k < |effective| ==>
           effective[k] in expand(apiKey.value, categories).value && !HasCategory(effective[..k], effective[k])
    ensures Present(apiKey) && expand(apiKey.value, categories).Returned? ==>
      var expanded := expand(apiKey.value, categories).value;
      forall k :: 0 <= k < |expanded| ==> HasCategory(EffectiveCategories(categories, apiKey, expand, defaults), expanded[k])
  {
    if Present(apiKey) && expand(apiKey.value, categories).Returned? {
      var expanded := expand(apiKey.value, categories).value;
      AddExpansionKeepsPrefix(categories, expanded);
      AddExpansionAppendsOnlyNew(categories, expanded);
      AddExpansionCovers(categories, expanded);
    }
  }

  /** With no base categories the default list is used as it is. */
  lemma EmptyBaseFallsBackToDefaults(apiKey: Option<string>,
                                     expand: (string, seq<string>) -> Attempt<seq<string>>,
                                     defaults: seq<string>)
    ensures EffectiveCategories([], apiKey, expand, defaults) == defaults
  {
  }

  /** Base entries that differ only in case are both kept: ["Art", "art", "SCIENCE"] stays three entries long. */
  lemma BaseCategoriesNotDeduplicated(apiKey: Option<string>,
                                      expand: (string, seq<string>) -> Attempt<seq<string>>,
                                      defaults: seq<string>)
    requires Present(apiKey) ==> expand(apiKey.value, ["Art", "art", "SCIENCE"]).Threw?
    ensures |EffectiveCategories(["Art", "art", "SCIENCE"], apiKey, expand, defaults)| == 3
  {
  }

  /** The `forEach` that grows the effective list, then the fallback to defaults. */
  method AggregateCategories(categories: seq<string>, apiKey: Option<string>,
                             expand: (string, seq<string>) -> Attempt<seq<string>>,
                             defaults: seq<string>)
    returns (effective: seq<string>)
    ensures effective == EffectiveCategories(categories, apiKey, expand, defaults)
  {
    effective := categories;
    if Present(apiKey) && |categories| > 0 {
      var outcome := expand(apiKey.value, categories);
      if outcome.Returned? && |outcome.value| > 0 {
        var expandedCats := outcome.value;
        var i := 0;
        while i < |expandedCats|
          invariant 0 <= i <= |expandedCats|
          invariant AddExpansion(effective, expandedCats[i..]) == AddExpansion(categories, expandedCats)
        {
          assert expandedCats[i..][1..] == expandedCats[i + 1..];
          if !HasCategory(effective, expandedCats[i]) {
            effective := effective + [expandedCats[i]];
          }
          i := i + 1;
        }
        assert expandedCats[i..] == [];
      }
    }
    if |effective| == 0 {
      effective := defaults;
    }
  }

  // ---------------------------------------------------------------------
  // Filtering
  // ---------------------------------------------------------------------

  /** The filter's test: a non-empty category equal, up to case, to an effective category. */
  predicate Matches(effective: seq<string>, site: Site)
  {
    site.category != "" && HasCategory(effective, site.category)
  }

  /** `siteDatabase.sites.filter(...)`: the relevant sites, in catalog order. */
  function Relevant(effective: seq<string>, sites: seq<Site>): (relevant: seq<Site>)
    ensures forall s :: s in relevant <==> s in sites && Matches(effective, s)
    ensures |relevant| <= |sites|
  {
    if sites == [] then []
    else (if Matches(effective, sites[0]) then [sites[0]] else []) + Relevant(effective, sites[1..])
  }

  // ---------------------------------------------------------------------
  // The bounded draw
  // ---------------------------------------------------------------------

  /** How many entries of the pool have a URL in the history. */
  function StaleCount(pool: seq<Site>, history: seq<string>): nat
  {
    if pool == [] then 0 else (if pool[0].url in history then 1 else 0) + StaleCount(pool[1..], history)
  }

  /** How many entries of the pool have a URL outside the history. */
  function FreshCount(pool: seq<Site>, history: seq<string>): nat
  {
    if pool == [] then 0 else (if pool[0].url in history then 0 else 1) + FreshCount(pool[1..], history)
  }

  lemma {:induction false} CountsOfConcat(a: seq<Site>, b: seq<Site>, history: seq<string>)
    ensures StaleCount(a + b, history) == StaleCount(a, history) + StaleCount(b, history)
    ensures FreshCount(a + b, history) == FreshCount(a, history) + FreshCount(b, history)
    decreases |a|
  {
    if a == [] {
      assert a + b == b;
    } else {
      assert (a + b)[0] == a[0];
      assert (a + b)[1..] == a[1..] + b;
      CountsOfConcat(a[1..], b, history);
    }
  }

  /** The pool has a fresh entry exactly when some entry's URL is outside the history. */
  lemma {:induction false} FreshCountPositive(pool: seq<Site>, history: seq<string>)
    ensures FreshCount(pool, history) > 0 <==> exists s :: s in pool && s.url !in history
    decreases |pool|
  {
    if pool != [] {
      FreshCountPositive(pool[1..], history);
      if exists s :: s in pool[1..] && s.url !in history {
        var s :| s in pool[1..] && s.url !in history;
        assert s in pool;
      }
      if exists s :: s in pool && s.url !in history {
        var s :| s in pool && s.url !in history;
        assert s == pool[0] || s in pool[1..];
      }
    }
  }

  /** Taking out an entry whose URL is in the history removes one stale entry and no fresh one. */
  lemma RemoveStale(pool: seq<Site>, i: nat, history: seq<string>)
    requires i < |pool| && pool[i].url in history
    ensures StaleCount(pool[..i] + pool[i + 1..], history) + 1 == StaleCount(pool, history)
    ensures FreshCount(pool[..i] + pool[i + 1..], history) == FreshCount(pool, history)
  {
    assert pool == pool[..i] + ([pool[i]] + pool[i + 1..]);
    CountsOfConcat(pool[..i], [pool[i]] + pool[i + 1..], history);
    CountsOfConcat([pool[i]], pool[i + 1..], history);
    CountsOfConcat(pool[..i], pool[i + 1..], history);
  }

  /**
   * `chooseWebsite`. Besides the selection it returns the filtered catalog
   * (`relevantSites`) as `relevant` and the number of random draws made
   * (`attempts`) as `draws`.
   */
  method ChooseWebsite(categories: seq<string>, siteDatabase: Option<seq<Site>>, history: seq<string>,
                       apiKey: Option<string>, expand: (string, seq<string>) -> Attempt<seq<string>>,
                       defaults: seq<string>, rolls: seq<real>)
    returns (choice: Selection, relevant: seq<Site>, draws: nat)
    requires AreRolls(rolls, MaxAttempts)
    // a missing or empty database is an error, not "no sites"
    ensures siteDatabase.None? || siteDatabase.value == [] ==>
      choice == Selection(None, Error, Some(DatabaseUnavailable)) && draws == 0
    ensures siteDatabase.Some? && siteDatabase.value != [] ==>
      relevant == Relevant(EffectiveCategories(categories, apiKey, expand, defaults), siteDatabase.value)
    ensures siteDatabase.Some? && siteDatabase.value != [] && relevant == [] ==>
      choice == Selection(None, NoSites, None) && draws == 0
    // with relevant sites the result is always one of them, and the error branch is never taken
    ensures relevant != [] ==>
      && choice.decision.Some? && choice.message.None?
      && (exists s :: s in relevant && s.url == choice.decision.value)
      && 1 <= draws <= MaxAttempts && draws <= |relevant|
    ensures relevant != [] ==>
      || (choice.reason == Success && choice.decision.value !in history)
      || (choice.reason == SuccessHistory && choice.decision.value in history)
    // failed draws remove only history entries, so a fresh site is found unless five stale ones come first
    ensures (relevant != [] && (exists s :: s in relevant && s.url !in history)
             && StaleCount(relevant, history) < MaxAttempts) ==> choice.reason == Success
  {
    relevant, draws := [], 0;
    var effectiveCategories := AggregateCategories(categories, apiKey, expand, defaults);
    if siteDatabase.None? || |siteDatabase.value| == 0 {
      choice := Selection(None, Error, Some(DatabaseUnavailable));
      return;
    }
    var relevantSites := Relevant(effectiveCategories, siteDatabase.value);
    relevant := relevantSites;
    if |relevantSites| == 0 {
      choice := Selection(None, NoSites, None);
      return;
    }
    FreshCountPositive(relevant, history);

    var potentialSite: Option<Site> := None;
    var attempts := 0;
    var availableSites := relevantSites;
    while attempts < MaxAttempts && |availableSites| > 0
      invariant 0 <= attempts <= MaxAttempts
      invariant |availableSites| + attempts == |relevant|
      invariant forall s :: s in availableSites ==> s in relevant
      invariant potentialSite.Some? <==> attempts > 0
      invariant potentialSite.Some? ==> potentialSite.value in relevant && potentialSite.value.url in history
      invariant FreshCount(availableSites, history) == FreshCount(relevant, history)
      invariant StaleCount(availableSites, history) + attempts == StaleCount(relevant, history)
    {
      attempts := attempts + 1;
      var randomIndex := RandomIndex(rolls[attempts - 1], |availableSites|);
      potentialSite := Some(availableSites[randomIndex]);
      if potentialSite.value.url !in history {
        choice, draws := Selection(Some(potentialSite.value.url), Success, None), attempts;
        return;
      } else {
        RemoveStale(availableSites, randomIndex, history);
        availableSites := availableSites[..randomIndex] + availableSites[randomIndex + 1..];
      }
    }
    if availableSites == [] {
      FreshCountPositive(availableSites, history);
    }
    if potentialSite.Some? {
      choice, draws := Selection(Some(potentialSite.value.url), SuccessHistory, None), attempts;
    } else {
      assert false;
      choice := Selection(None, Error, Some(SelectionFailed));
    }
  }
}
