/**
 * The dashboard's "Recent Activity" panel: the ids stored by the activity
 * logger are resolved back to catalogue entries, unknown ids are dropped.
 */
module RecentAgents {
  import opened Wrappers
  import opened Lists
  import opened Catalogue
  import opened ActivityLogger

  /** The ids of a list of bots, in order. */
  function IdsOf(bots: seq<Bot>): (ids: seq<string>)
    ensures |ids| == |bots|
    ensures forall k :: 0 <= k < |bots| ==> ids[k] == bots[k].id
  {
    if bots == [] then [] else [bots[0].id] + IdsOf(bots[1..])
  }

  /**
   * `recentIds.map(id => chatbotData.find(bot => bot.id === id)).filter(Boolean)`:
   * each stored id replaced by the first catalogue entry with that id, and
   * the ids no entry carries dropped.
   */
  function ResolveBots(catalogue: seq<Bot>, ids: seq<string>): (r: seq<Bot>)
    ensures |r| <= |ids|
    ensures forall k :: 0 <= k < |r| ==> FindBot(catalogue, r[k].id) == Some(r[k])
  {
    if ids == [] then []
    else
      match FindBot(catalogue, ids[0])
      case Some(bot) => [bot] + ResolveBots(catalogue, ids[1..])
      case None => ResolveBots(catalogue, ids[1..])
  }

  /**
   * The resolved bots follow the stored order (not catalogue order), and
   * exactly the stored ids that some catalogue entry carries survive.
   */
  lemma {:induction false} ResolveFollowsStoredOrder(catalogue: seq<Bot>, ids: seq<string>)
    ensures IdsOf(ResolveBots(catalogue, ids)) == Filter(id => HasBot(catalogue, id), ids)
  {
    if ids != [] {
      ResolveFollowsStoredOrder(catalogue, ids[1..]);
      var rest := ResolveBots(catalogue, ids[1..]);
      match FindBot(catalogue, ids[0]) {
        case Some(bot) =>
          assert ResolveBots(catalogue, ids) == [bot] + rest;
          assert IdsOf([bot] + rest) == [bot.id] + IdsOf(rest) by {
            assert ([bot] + rest)[1..] == rest;
          }
        case None =>
      }
    }
  }

  /** A stored id shows up in the panel exactly when the catalogue knows it. */
  lemma ResolveKeepsKnownIds(catalogue: seq<Bot>, ids: seq<string>, id: string)
    requires id in ids
    ensures id in IdsOf(ResolveBots(catalogue, ids)) <==> HasBot(catalogue, id)
  {
    ResolveFollowsStoredOrder(catalogue, ids);
    FilterMembership(id => HasBot(catalogue, id), ids, id);
  }

  /**
   * The effect at mount: read `recentAgents` and resolve it. Nothing stored
   * gives an empty panel; a value that is not a list makes the effect throw
   * (`None`), since this effect, unlike the logger, catches nothing.
   */
  function LoadRecentBots(stored: StoredRecents, catalogue: seq<Bot>): (r: Option<seq<Bot>>)
    ensures stored.Missing? ==> r == Some([])
    ensures stored.Unparsable? <==> r.None?
    ensures stored.Ids? ==> r == Some(ResolveBots(catalogue, stored.ids))
    ensures stored.Ids? ==>
      && r.Some?
      && |r.value| <= |stored.ids|
      && IdsOf(r.value) == Filter(id => HasBot(catalogue, id), stored.ids)
  {
    match stored
    case Missing => Some([])
    case Unparsable => None
    case Ids(ids) =>
      ResolveFollowsStoredOrder(catalogue, ids);
      Some(ResolveBots(catalogue, ids))
  }

  /**
   * After launching a known agent from a page that logs it, the panel
   * shows that agent first.
   */
  lemma LoggedAgentShownFirst(prior: seq<string>, catalogue: seq<Bot>, bot: Bot)
    requires bot in catalogue
    ensures var shown := ResolveBots(catalogue, NextRecents(prior, bot.id));
      shown != [] && shown[0].id == bot.id
  {
    var r := NextRecents(prior, bot.id);
    assert HasBot(catalogue, bot.id) by {
      var k :| 0 <= k < |catalogue| && catalogue[k] == bot;
    }
    assert r == [r[0]] + r[1..];
  }
}
