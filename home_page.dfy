/**
 * The explore page: the catalogue filtered by category and by a
 * case-insensitive search term, and the favourites list persisted under
 * `favoriteBots`.
 */
module HomePage {
  import opened Wrappers
  import opened Lists
  import opened Catalogue

  /** `toLowerCase` on one character, over ASCII letters. */
  function LowerChar(c: char): (d: char)
    ensures !('A' <= d <= 'Z')
    ensures !('A' <= c <= 'Z') ==> d == c
    ensures 'A' <= c <= 'Z' ==> d as int == c as int + 32
  {
    if 'A' <= c <= 'Z' then (c as int + 32) as char else c
  }

  /** `s.toLowerCase()`, over ASCII letters. */
  function Lower(s: string): (r: string)
    ensures |r| == |s|
    ensures forall k :: 0 <= k < |r| ==> r[k] == LowerChar(s[k])
  {
    seq(|s|, k requires 0 <= k < |s| => LowerChar(s[k]))
  }

  /** Lower-casing twice is lower-casing once. */
  lemma LowerIdempotent(s: string)
    ensures Lower(Lower(s)) == Lower(s)
  {
    assert forall k :: 0 <= k < |s| ==> LowerChar(LowerChar(s[k])) == LowerChar(s[k]);
  }

  /** `t` occurs in `s` starting at index `i`. */
  predicate OccursAt(s: string, t: string, i: int)
  {
    0 <= i && i + |t| <= |s| && s[i..i + |t|] == t
  }

  /** `s.includes(t)`: `t` occurs in `s` as a contiguous substring. */
  function Includes(s: string, t: string): (b: bool)
    ensures b <==> exists i :: OccursAt(s, t, i)
    decreases |s|
  {
    if |t| > |s| then false
    else if s[..|t|] == t then assert OccursAt(s, t, 0); true
    else
      var b := Includes(s[1..], t);
      assert b ==> exists i :: OccursAt(s, t, i) by {
        if b {
          var i :| OccursAt(s[1..], t, i);
          assert s[i + 1..i + 1 + |t|] == s[1..][i..i + |t|];
          assert OccursAt(s, t, i + 1);
        }
      }
      assert (exists i :: OccursAt(s, t, i)) ==> b by {
        if exists i :: OccursAt(s, t, i) {
          var i :| OccursAt(s, t, i);
          assert i != 0;
          assert s[1..][i - 1..i - 1 + |t|] == s[i..i + |t|];
          assert OccursAt(s[1..], t, i - 1);
        }
      }
      b
  }

  /** The predicate of the filter effect for one catalogue entry. */
  predicate Matches(bot: Bot, filterKey: string, searchTerm: string)
    ensures searchTerm == "" ==> (Matches(bot, filterKey, searchTerm) <==> filterKey == "*" || bot.category == filterKey)
    ensures Matches(bot, filterKey, searchTerm) ==> |searchTerm| <= |bot.name| || |searchTerm| <= |bot.description|
  {
    var lowerSearchTerm := Lower(searchTerm);
    assert searchTerm == "" ==> OccursAt(Lower(bot.name), lowerSearchTerm, 0);
    && (filterKey == "*" || bot.category == filterKey)
    && (Includes(Lower(bot.name), lowerSearchTerm) || Includes(Lower(bot.description), lowerSearchTerm))
  }

  /**
   * The filter effect: the catalogue entries in the chosen category (any,
   * for `*`) whose name or description contains the search term, ignoring
   * case, in catalogue order.
   */
  function FilterBots(catalogue: seq<Bot>, filterKey: string, searchTerm: string): (r: seq<Bot>)
    ensures IsSubsequence(r, catalogue)
    ensures filterKey != "*" ==> forall k :: 0 <= k < |r| ==> r[k].category == filterKey
    ensures forall k :: 0 <= k < |r| ==>
      var lowerSearchTerm := Lower(searchTerm);
      Includes(Lower(r[k].name), lowerSearchTerm) || Includes(Lower(r[k].description), lowerSearchTerm)
    ensures forall bot :: bot in catalogue ==> (bot in r <==> Matches(bot, filterKey, searchTerm))
  {
    var p := (bot: Bot) => Matches(bot, filterKey, searchTerm);
    FilterIsSubsequence(p, catalogue);
    forall bot | bot in catalogue
      ensures bot in Filter(p, catalogue) <==> Matches(bot, filterKey, searchTerm)
    {
      FilterMembership(p, catalogue, bot);
    }
    Filter(p, catalogue)
  }

  /** With category `*` and an empty search term the whole catalogue is shown. */
  lemma FilterShowsAll(catalogue: seq<Bot>)
    ensures FilterBots(catalogue, "*", "") == catalogue
  {
    forall k | 0 <= k < |catalogue| ensures Matches(catalogue[k], "*", "") {
      assert OccursAt(Lower(catalogue[k].name), Lower(""), 0);
    }
    FilterAll((bot: Bot) => Matches(bot, "*", ""), catalogue);
  }

  /** The search ignores case: searching for a term or its lower-case form is the same. */
  lemma FilterIgnoresCase(catalogue: seq<Bot>, filterKey: string, searchTerm: string)
    ensures FilterBots(catalogue, filterKey, searchTerm) == FilterBots(catalogue, filterKey, Lower(searchTerm))
  {
    LowerIdempotent(searchTerm);
    FilterAgreeing((bot: Bot) => Matches(bot, filterKey, searchTerm),
                   (bot: Bot) => Matches(bot, filterKey, Lower(searchTerm)), catalogue);
  }

  /**
   * `toggleFavorite`'s new list: a present id loses every occurrence, an
   * absent one is appended at the end.
   */
  function ToggleFavorite(favorites: seq<string>, botId: string): (r: seq<string>)
    ensures botId in r <==> botId !in favorites
    ensures botId in favorites ==>
      && IsSubsequence(r, favorites)
      && forall x :: x != botId ==> Count(r, x) == Count(favorites, x)
    ensures botId !in favorites ==> r == favorites + [botId]
  {
    if botId in favorites then
      WithoutIsSubsequence(favorites, botId);
      forall x | x != botId ensures Count(Without(favorites, botId), x) == Count(favorites, x) {
        WithoutCount(favorites, botId, x);
      }
      Without(favorites, botId)
    else
      favorites + [botId]
  }

  /** Toggling an absent id twice restores the original list. */
  lemma ToggleTwiceRestores(favorites: seq<string>, botId: string)
    requires botId !in favorites
    ensures ToggleFavorite(ToggleFavorite(favorites, botId), botId) == favorites
  {
    WithoutAppended(favorites, botId);
    WithoutAbsent(favorites, botId);
  }

  /** The explore page's state. */
  class HomePageState {
    const catalogue: seq<Bot>
    var favorites: seq<string>
    var storedFavorites: Option<seq<string>>
    var filteredBots: seq<Bot>
    var filterKey: string
    var searchTerm: string
    var isLoading: bool

    /** Once loaded, the grid always shows the filter of the current inputs. */
    ghost predicate Valid()
      reads this
    {
      !isLoading ==> filteredBots == FilterBots(catalogue, filterKey, searchTerm)
    }

    /** First render: nothing loaded, category `*`, empty search. */
    constructor (catalogue: seq<Bot>, stored: Option<seq<string>>)
      ensures Valid()
      ensures this.catalogue == catalogue && storedFavorites == stored
      ensures isLoading && favorites == [] && filteredBots == []
      ensures filterKey == "*" && searchTerm == ""
    {
      this.catalogue := catalogue;
      storedFavorites := stored;
      favorites := [];
      filteredBots := [];
      filterKey := "*";
      searchTerm := "";
      isLoading := true;
    }

    /** The filter effect, run whenever the key, the term or the loading flag changes. */
    method ApplyFilters()
      modifies this`filteredBots
      ensures isLoading ==> filteredBots == old(filteredBots)
      ensures !isLoading ==> filteredBots == FilterBots(catalogue, filterKey, searchTerm)
    {
      if !isLoading {
        filteredBots := FilterBots(catalogue, filterKey, searchTerm);
      }
    }

    /**
     * The delayed load: favourites read from storage (missing means none),
     * the whole catalogue shown, loading over, and the filter effect re-run
     * for whatever key and term were chosen meanwhile.
     */
    method FinishLoading()
      requires Valid()
      modifies this`favorites, this`filteredBots, this`isLoading
      ensures Valid() && !isLoading
      ensures favorites == if storedFavorites.Some? then storedFavorites.value else []
      ensures filterKey == "*" && searchTerm == "" ==> filteredBots == catalogue
    {
      favorites := if storedFavorites.Some? then storedFavorites.value else [];
      filteredBots := catalogue;
      isLoading := false;
      ApplyFilters();
      FilterShowsAll(catalogue);
    }

    /** A category button: `setFilterKey(key)`, then the filter effect. */
    method SetFilterKey(key: string)
      requires Valid()
      modifies this`filterKey, this`filteredBots
      ensures Valid() && filterKey == key && searchTerm == old(searchTerm)
    {
      filterKey := key;
      ApplyFilters();
    }

    /** The search box: `setSearchTerm(term)`, then the filter effect. */
    method SetSearchTerm(term: string)
      requires Valid()
      modifies this`searchTerm, this`filteredBots
      ensures Valid() && searchTerm == term && filterKey == old(filterKey)
    {
      searchTerm := term;
      ApplyFilters();
    }

    /** `toggleFavorite(botId)`: update the list and persist the same list. */
    method ToggleFavoriteBot(botId: string)
      requires Valid()
      modifies this`favorites, this`storedFavorites
      ensures Valid()
      ensures favorites == ToggleFavorite(old(favorites), botId)
      ensures storedFavorites == Some(favorites)
    {
      var updatedFavorites: seq<string>;
      if botId in favorites {
        updatedFavorites := Without(favorites, botId);
      } else {
        updatedFavorites := favorites + [botId];
      }
      favorites := updatedFavorites;
      storedFavorites := Some(updatedFavorites);
    }
  }
}
