/**
 * The agent catalogue (`chatbotData`) as the client pages see it, the
 * lookup of a bot by id and the launch link every page builds for a bot.
 */
module Catalogue {
  import opened Wrappers

  /** The fields of a catalogue entry that the modelled logic reads. */
  datatype Bot = Bot(id: string, name: string, category: string, description: string, embedType: string)

  /** Some catalogue entry carries this id. */
  predicate HasBot(catalogue: seq<Bot>, id: string)
  {
    exists k :: 0 <= k < |catalogue| && catalogue[k].id == id
  }

  /**
   * `chatbotData.find(bot => bot.id === id)`: the FIRST entry carrying `id`,
   * or nothing when no entry does.
   */
  function FindBot(catalogue: seq<Bot>, id: string): (r: Option<Bot>)
    ensures r.None? <==> !HasBot(catalogue, id)
    ensures r.Some? ==>
      && r.value.id == id
      && exists k :: 0 <= k < |catalogue| && catalogue[k] == r.value &&
           forall j :: 0 <= j < k ==> catalogue[j].id != id
  {
    if catalogue == [] then None
    else if catalogue[0].id == id then Some(catalogue[0])
    else
      var rest := FindBot(catalogue[1..], id);
      assert HasBot(catalogue, id) ==> HasBot(catalogue[1..], id) by {
        if HasBot(catalogue, id) {
          var k :| 0 <= k < |catalogue| && catalogue[k].id == id;
          assert catalogue[1..][k - 1].id == id;
        }
      }
      if rest.Some? then
        var k :| 0 <= k < |catalogue[1..]| && catalogue[1..][k] == rest.value &&
          forall j :: 0 <= j < k ==> catalogue[1..][j].id != id;
        assert catalogue[k + 1] == rest.value;
        assert forall j :: 0 <= j < k + 1 ==> catalogue[j].id != id by {
          forall j | 0 <= j < k + 1 ensures catalogue[j].id != id {
            if j > 0 { assert catalogue[j] == catalogue[1..][j - 1]; }
          }
        }
        rest
      else
        rest
  }

  /**
   * The link a card, a recent-activity row or the details modal opens:
   * `/embed/<id>` for an iframe agent, `/chat/<id>` for every other one.
   */
  function LaunchUrl(bot: Bot): (url: string)
    ensures (|url| >= 7 && url[..7] == "/embed/") <==> bot.embedType == "iframe"
    ensures |url| >= |bot.id| && url[|url| - |bot.id|..] == bot.id
    ensures bot.embedType != "iframe" ==> |url| >= 6 && url[..6] == "/chat/"
    ensures |url| == |bot.id| + (if bot.embedType == "iframe" then 7 else 6)
  {
    if bot.embedType == "iframe" then "/embed/" + bot.id
    else
      var url := "/chat/" + bot.id;
      assert url[1] == 'c';
      url
  }
}
