/**
 * The "recent agents" list kept in the browser's `localStorage` under the
 * key `recentAgents`: launching an agent moves its id to the front, drops
 * any older occurrence and keeps at most `MaxRecents` ids.
 */
module ActivityLogger {
  import opened Lists

  /** `MAX_RECENTS`: how many recent agents are remembered. */
  const MaxRecents: nat := 4

  /**
   * What `localStorage.getItem('recentAgents')` yields once parsed:
   * nothing stored (or a falsy JSON value, which `|| []` turns into `[]`),
   * a JSON array of ids, or a value on which parsing or `filter` throws.
   */
  datatype StoredRecents = Missing | Ids(ids: seq<string>) | Unparsable

  /** The list written back after logging `botId` on top of `prior`. */
  function NextRecents(prior: seq<string>, botId: string): (r: seq<string>)
    ensures 1 <= |r| <= MaxRecents
    ensures r[0] == botId
    ensures Count(r, botId) == 1
    ensures r[1..] <= Without(prior, botId)
    ensures |r| == if 1 + |Without(prior, botId)| > MaxRecents then MaxRecents else 1 + |Without(prior, botId)|
  {
    var newRecents := [botId] + Without(prior, botId);
    var r := if |newRecents| > MaxRecents then newRecents[..MaxRecents] else newRecents;
    assert r[1..] == Without(prior, botId)[..|r| - 1];
    assert botId !in r[1..];
    CountZero(r[1..], botId);
    assert r == [r[0]] + r[1..];
    r
  }

  /** The ids other than `botId` keep their previous relative order. */
  lemma NextRecentsKeepsOrder(prior: seq<string>, botId: string)
    ensures IsSubsequence(NextRecents(prior, botId)[1..], prior)
  {
    var r := NextRecents(prior, botId);
    var w := Without(prior, botId);
    WithoutIsSubsequence(prior, botId);
    SubsequencePrefix(w, prior, |r| - 1);
    assert r[1..] == w[..|r| - 1];
  }

  /** Every id in the new list was either just logged or already recent. */
  lemma NextRecentsMembers(prior: seq<string>, botId: string, x: string)
    ensures x in NextRecents(prior, botId) ==> x == botId || x in prior
  {
    var r := NextRecents(prior, botId);
    if x in r && x != botId {
      assert r == [r[0]] + r[1..];
      assert x in r[1..];
      NextRecentsKeepsOrder(prior, botId);
      SubsequenceMembers(r[1..], prior);
    }
  }

  /** Logging the same id twice in a row is the same as logging it once. */
  lemma NextRecentsIdempotent(prior: seq<string>, botId: string)
    ensures NextRecents(NextRecents(prior, botId), botId) == NextRecents(prior, botId)
  {
    var r := NextRecents(prior, botId);
    var tail := r[1..];
    assert botId !in tail by {
      WithoutMembership(prior, botId, botId);
      assert tail == Without(prior, botId)[..|tail|];
    }
    assert r == [botId] + tail;
    calc {
      Without(r, botId);
      Without(tail, botId);
      { WithoutAbsent(tail, botId); }
      tail;
    }
  }

  /** A duplicate-free list stays duplicate-free. */
  lemma NextRecentsDistinct(prior: seq<string>, botId: string)
    requires Distinct(prior)
    ensures Distinct(NextRecents(prior, botId))
  {
    var r := NextRecents(prior, botId);
    var w := Without(prior, botId);
    WithoutDistinct(prior, botId);
    assert r[1..] == w[..|r| - 1];
    forall i, j | 0 <= i < j < |r| ensures r[i] != r[j] {
      if i == 0 {
        assert r[j] == w[j - 1];
      } else {
        assert r[i] == w[i - 1] && r[j] == w[j - 1];
      }
    }
  }

  /** The browser's storage slot read and written by `logAgentActivity`. */
  class RecentsStorage {
    var recentAgents: StoredRecents

    constructor (initial: StoredRecents)
      ensures recentAgents == initial
    {
      recentAgents := initial;
    }

    /**
     * `logAgentActivity(botId)`. Outside a browser (`inBrowser` false) it
     * does nothing; a stored value that cannot be parsed as a list makes
     * it throw, and the exception is caught with storage untouched.
     */
    method LogAgentActivity(botId: string, inBrowser: bool)
      modifies this
      ensures !inBrowser ==> recentAgents == old(recentAgents)
      ensures inBrowser && old(recentAgents).Missing? ==> recentAgents == Ids([botId])
      ensures inBrowser && old(recentAgents).Ids? ==>
        recentAgents == Ids(NextRecents(old(recentAgents).ids, botId))
      ensures old(recentAgents).Unparsable? ==> recentAgents == old(recentAgents)
    {
      if !inBrowser {
        return;
      }
      var recentIds: seq<string>;
      match recentAgents {
        case Unparsable => return;
        case Missing => recentIds := [];
        case Ids(ids) => recentIds := ids;
      }
      var filteredIds := Without(recentIds, botId);
      var newRecents := [botId] + filteredIds;
      if |newRecents| > MaxRecents {
        newRecents := newRecents[..MaxRecents];
      }
      recentAgents := Ids(newRecents);
    }
  }
}
