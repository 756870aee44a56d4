/**
 * The dashboard's favourites workspace: the favourite agents listed in
 * catalogue order, one of them open at a time, and a per-agent cache of
 * personal notes fetched from and saved to the notes endpoint.
 */
module Dashboard {
  import opened Wrappers
  import opened Lists
  import opened Catalogue
  import HomePage

  /**
   * `chatbotData.filter(bot => favoriteIds.includes(bot.id.toString()))`:
   * the catalogue entries whose id was stored as a favourite, in
   * catalogue order (not in the order they were favourited).
   */
  function FavoriteBots(catalogue: seq<Bot>, favoriteIds: seq<string>): (r: seq<Bot>)
    ensures IsSubsequence(r, catalogue)
    ensures forall bot :: bot in catalogue ==> (bot in r <==> bot.id in favoriteIds)
  {
    var p := (bot: Bot) => bot.id in favoriteIds;
    FilterIsSubsequence(p, catalogue);
    forall bot | bot in catalogue ensures bot in Filter(p, catalogue) <==> bot.id in favoriteIds {
      FilterMembership(p, catalogue, bot);
    }
    Filter(p, catalogue)
  }

  /** The favourites effect at mount: nothing stored means no favourites. */
  function LoadFavorites(catalogue: seq<Bot>, stored: Option<seq<string>>): (r: seq<Bot>)
    ensures stored.None? ==> r == []
    ensures stored.Some? ==> r == FavoriteBots(catalogue, stored.value)
    ensures IsSubsequence(r, catalogue)
  {
    FavoriteBots(catalogue, if stored.Some? then stored.value else [])
  }

  /**
   * An agent favourited on the explore page (an id it did not hold yet)
   * appears on the dashboard, with all its catalogue entries.
   */
  lemma FavoritedAgentListed(catalogue: seq<Bot>, favorites: seq<string>, bot: Bot)
    requires bot in catalogue && bot.id !in favorites
    ensures bot in FavoriteBots(catalogue, HomePage.ToggleFavorite(favorites, bot.id))
  {
    assert bot.id in favorites + [bot.id];
  }

  /** The workspace state: open agent, notes cache, editor text, spinner. */
  datatype Workspace = Workspace(
    activeBotId: Option<string>,
    notes: map<string, string>,
    currentNoteContent: string,
    isLoadingNote: bool)

  /** What `fetch('/api/notes/<id>')` came to: thrown, not ok, or the stored note (or `null`). */
  datatype NoteFetch = FetchFailed | FetchNotOk | FetchOk(note: Option<string>)

  /** The new workspace after a click, and whether the click fetched. */
  datatype ClickResult = ClickResult(ws: Workspace, fetched: bool)

  /** The text a successful fetch shows: the note's content, or `''` for `null`. */
  function FetchedContent(note: Option<string>): string
  {
    if note.Some? then note.value else ""
  }

  /**
   * `handleBotClick(botId)`: clicking the open agent closes it; any other
   * agent opens, showing its cached note without a fetch, or else its
   * fetched note, which is then cached.
   */
  function BotClick(ws: Workspace, botId: string, fetch: NoteFetch): (r: ClickResult)
    ensures ws.activeBotId == Some(botId) ==> r.ws == ws.(activeBotId := None) && !r.fetched
    ensures ws.activeBotId != Some(botId) ==>
      && r.ws.activeBotId == Some(botId)
      && !r.ws.isLoadingNote
      && r.fetched == (botId !in ws.notes)
    ensures ws.activeBotId != Some(botId) && botId in ws.notes ==>
      r.ws.notes == ws.notes && r.ws.currentNoteContent == ws.notes[botId]
    ensures r.fetched && fetch.FetchOk? ==>
      && r.ws.notes == ws.notes[botId := FetchedContent(fetch.note)]
      && r.ws.currentNoteContent == FetchedContent(fetch.note)
    ensures r.fetched && !fetch.FetchOk? ==>
      r.ws.notes == ws.notes && r.ws.currentNoteContent == ws.currentNoteContent
    ensures forall id :: id in ws.notes ==> id in r.ws.notes && r.ws.notes[id] == ws.notes[id]
  {
    if ws.activeBotId == Some(botId) then
      ClickResult(ws.(activeBotId := None), false)
    else if botId in ws.notes then
      ClickResult(Workspace(Some(botId), ws.notes, ws.notes[botId], false), false)
    else
      match fetch
      case FetchOk(note) =>
        var content := FetchedContent(note);
        ClickResult(Workspace(Some(botId), ws.notes[botId := content], content, false), true)
      case _ =>
        ClickResult(Workspace(Some(botId), ws.notes, ws.currentNoteContent, false), true)
  }

  /** What the save request came to: thrown or not ok, or the saved note's content. */
  datatype SaveResponse = SaveFailed | SaveOk(savedContent: string)

  /**
   * `handleSaveNote()`: a successful save caches what the server stored
   * for the open agent; a failed one changes nothing.
   */
  function SaveNote(ws: Workspace, response: SaveResponse): (r: Workspace)
    requires ws.activeBotId.Some?
    ensures response.SaveFailed? ==> r == ws
    ensures response.SaveOk? ==>
      && r.notes == ws.notes[ws.activeBotId.value := response.savedContent]
      && r.activeBotId == ws.activeBotId
      && r.currentNoteContent == ws.currentNoteContent
      && r.isLoadingNote == ws.isLoadingNote
  {
    match response
    case SaveFailed => ws
    case SaveOk(content) => ws.(notes := ws.notes[ws.activeBotId.value := content])
  }

  /** Clicking the same agent twice closes it again and leaves the cache as the first click left it. */
  lemma ClickTwiceCloses(ws: Workspace, botId: string, first: NoteFetch, second: NoteFetch)
    requires ws.activeBotId != Some(botId)
    ensures var once := BotClick(ws, botId, first).ws;
      var twice := BotClick(once, botId, second);
      twice.ws.activeBotId.None? && twice.ws.notes == once.notes && !twice.fetched
  {
  }

  /**
   * Once an agent's note was fetched, closing and reopening it shows the
   * cached text without a second fetch.
   */
  lemma ReopenUsesCache(ws: Workspace, botId: string, note: Option<string>, later1: NoteFetch, later2: NoteFetch)
    requires ws.activeBotId != Some(botId) && botId !in ws.notes
    ensures var shown := BotClick(ws, botId, FetchOk(note)).ws;
      var closed := BotClick(shown, botId, later1).ws;
      var reopened := BotClick(closed, botId, later2);
      && !reopened.fetched
      && reopened.ws.currentNoteContent == FetchedContent(note)
  {
    var shown := BotClick(ws, botId, FetchOk(note)).ws;
    assert shown.notes[botId] == FetchedContent(note);
  }

  /** After a successful save, reopening the agent shows the saved text. */
  lemma SavedNoteShownOnReopen(ws: Workspace, content: string, later1: NoteFetch, later2: NoteFetch)
    requires ws.activeBotId.Some?
    ensures var botId := ws.activeBotId.value;
      var saved := SaveNote(ws, SaveOk(content));
      var closed := BotClick(saved, botId, later1).ws;
      var reopened := BotClick(closed, botId, later2);
      !reopened.fetched && reopened.ws.currentNoteContent == content
  {
  }

  /** The dashboard page's state. */
  class DashboardPage {
    var favoriteBots: seq<Bot>
    var activeBotId: Option<string>
    var notes: map<string, string>
    var currentNoteContent: string
    var isLoadingNote: bool

    /** The workspace part of the state, as a value. */
    function State(): Workspace
      reads this
    {
      Workspace(activeBotId, notes, currentNoteContent, isLoadingNote)
    }

    /** First render: no favourites, nothing open, empty cache. */
    constructor ()
      ensures favoriteBots == [] && State() == Workspace(None, map[], "", false)
    {
      favoriteBots := [];
      activeBotId := None;
      notes := map[];
      currentNoteContent := "";
      isLoadingNote := false;
    }

    /** The favourites effect at mount. */
    method LoadFavoriteBots(catalogue: seq<Bot>, stored: Option<seq<string>>)
      modifies this`favoriteBots
      ensures favoriteBots == LoadFavorites(catalogue, stored)
    {
      var favoriteIds := if stored.Some? then stored.value else [];
      favoriteBots := FavoriteBots(catalogue, favoriteIds);
    }

    /** `handleBotClick(botId)`; `fetch` is consulted only when the note is not cached. */
    method HandleBotClick(botId: string, fetch: NoteFetch) returns (fetched: bool)
      modifies this`activeBotId, this`notes, this`currentNoteContent, this`isLoadingNote
      ensures ClickResult(State(), fetched) == BotClick(old(State()), botId, fetch)
    {
      fetched := false;
      if activeBotId == Some(botId) {
        activeBotId := None;
        return;
      }
      activeBotId := Some(botId);
      isLoadingNote := true;
      if botId in notes {
        currentNoteContent := notes[botId];
        isLoadingNote := false;
        return;
      }
      fetched := true;
      match fetch {
        case FetchOk(note) =>
          var content := if note.Some? then note.value else "";
          notes := notes[botId := content];
          currentNoteContent := content;
        case _ =>
      }
      isLoadingNote := false;
    }

    /**
     * `handleSaveNote()`: posts the editor text for the open agent (the
     * save button exists only while an agent is open) and caches the reply.
     */
    method HandleSaveNote(response: SaveResponse) returns (postedBotId: string, postedContent: string)
      requires activeBotId.Some?
      modifies this`notes
      ensures postedBotId == old(activeBotId).value && postedContent == old(currentNoteContent)
      ensures State() == SaveNote(old(State()), response)
    {
      postedBotId := activeBotId.value;
      postedContent := currentNoteContent;
      match response {
        case SaveOk(content) => notes := notes[postedBotId := content];
        case SaveFailed =>
      }
    }
  }
}
