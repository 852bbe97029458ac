/** The pure parts of the service that talks to the game's web API: the
    derivation of `isSingleGame` and `teamName` added to every game-history
    entry, the request checks and the teammate game id of `checkGameType`, and
    the test that tells a teammate's game data from an HTML error page. The
    HTTP requests themselves are parameters. */
module TheShow {
  import opened Text

  const CPU := "CPU"

  /** One entry of the game history as the API sends it, with the optional
      fields the service and the client add. */
  datatype GameHistoryItem = GameHistoryItem(
    id: string,
    gameMode: string,
    homeFullName: string,
    awayFullName: string,
    homeDisplayResult: string,
    awayDisplayResult: string,
    homeRuns: string,
    awayRuns: string,
    homeHits: string,
    awayHits: string,
    homeErrors: string,
    awayErrors: string,
    displayPitcherInfo: string,
    homeName: string,
    awayName: string,
    displayDate: string,
    teamName: Option<string>,
    isTeamGame: Option<bool>,
    isUserHost: Option<bool>,
    isSingleGame: Option<bool>,
    isTeamGameChecking: Option<bool>)

  /** A page of the game history. */
  datatype GameHistoryPage = GameHistoryPage(page: int, perPage: int, totalPages: int, gameHistory: seq<GameHistoryItem>)

  // ------------------------------------------------------ game history

  /** A game against the computer: either full name is "CPU". */
  predicate IsSingleGame(g: GameHistoryItem) {
    g.homeFullName == CPU || g.awayFullName == CPU
  }

  /** The player's team name read off an entry. When both short names are
      "CPU" it is the first full name that is not "CPU", home first; when only
      the home short name is "CPU" it is the home full name; when only the away
      short name is, the away full name; otherwise there is none. */
  function TeamNameOf(g: GameHistoryItem): (r: Option<string>)
    ensures r.Some? ==> r.value == g.homeFullName || r.value == g.awayFullName
    ensures r.None? <==>
              (g.homeName != CPU && g.awayName != CPU)
              || (g.homeName == CPU && g.awayName == CPU && g.homeFullName == CPU && g.awayFullName == CPU)
    ensures g.homeName == CPU && g.awayName == CPU && r.Some? ==> r.value != CPU
    ensures g.homeName == CPU && g.awayName == CPU && g.homeFullName != CPU ==> r == Some(g.homeFullName)
    ensures g.homeName == CPU && g.awayName != CPU ==> r == Some(g.homeFullName)
    ensures g.homeName != CPU && g.awayName == CPU ==> r == Some(g.awayFullName)
  {
    if g.homeName == CPU && g.awayName == CPU then
      if g.homeFullName != CPU then Some(g.homeFullName)
      else if g.awayFullName != CPU then Some(g.awayFullName)
      else None
    else if g.homeName == CPU && g.awayName != CPU then Some(g.homeFullName)
    else if g.homeName != CPU && g.awayName == CPU then Some(g.awayFullName)
    else None
  }

  /** `{ ...game, teamName, isSingleGame }`: the entry with the two derived
      fields written over. */
  function Enhance(g: GameHistoryItem): (r: GameHistoryItem)
    ensures r.teamName == TeamNameOf(g)
    ensures r.isSingleGame == Some(IsSingleGame(g))
  {
    g.(teamName := TeamNameOf(g), isSingleGame := Some(IsSingleGame(g)))
  }

  /** The fields the API sends, with the derived ones cleared. */
  function Base(g: GameHistoryItem): GameHistoryItem {
    g.(teamName := None, isSingleGame := None)
  }

  /** Enhancing an entry changes nothing but the two derived fields, and doing
      it twice gives what doing it once does. */
  lemma EnhanceKeepsFields(g: GameHistoryItem)
    ensures Base(Enhance(g)) == Base(g)
    ensures Enhance(Enhance(g)) == Enhance(g)
  {
  }

  /** The mapping of `fetchGameHistoryFromApi` over the page it fetched. */
  function EnhanceHistory(p: GameHistoryPage): (r: GameHistoryPage)
    ensures r.page == p.page && r.perPage == p.perPage && r.totalPages == p.totalPages
    ensures |r.gameHistory| == |p.gameHistory|
    ensures forall i :: 0 <= i < |p.gameHistory| ==> r.gameHistory[i] == Enhance(p.gameHistory[i])
  {
    p.(gameHistory := seq(|p.gameHistory|, i requires 0 <= i < |p.gameHistory| => Enhance(p.gameHistory[i])))
  }

  /** The enhanced history is the fetched one entry by entry, in the same
      order, with only the derived fields changed. */
  lemma {:induction false} EnhanceHistoryKeepsEntries(p: GameHistoryPage, i: nat)
    requires i < |p.gameHistory|
    ensures Base(EnhanceHistory(p).gameHistory[i]) == Base(p.gameHistory[i])
    ensures EnhanceHistory(p).gameHistory[i].isSingleGame == Some(IsSingleGame(p.gameHistory[i]))
  {
    EnhanceKeepsFields(p.gameHistory[i]);
  }

  /** A game whose two short names are "CPU" and that is not against the
      computer is credited to the home team. */
  lemma NoCpuFullNameIsHome(g: GameHistoryItem)
    requires g.homeName == CPU && g.awayName == CPU && !IsSingleGame(g)
    ensures TeamNameOf(g) == Some(g.homeFullName)
  {
  }

  // ------------------------------------------------------ checkGameType

  /** The request of `checkGameType`; a missing field is `None`. */
  datatype GameTypeCheckRequest = GameTypeCheckRequest(gameId: Option<string>, teammateUsername: Option<string>)

  datatype GameTypeCheckResponse = GameTypeCheckResponse(gameId: string, isTeamGame: bool)

  datatype CheckError = MissingGameId | MissingTeammate

  /** What the teammate lookup brings back when it does not throw: the
      content-type header when it is a string, and the body as text. */
  datatype Fetched = Fetched(contentType: Option<string>, body: string)

  /** `isHtmlError` and `hasGameData`: an HTML error page is told by its
      content type or its doctype; game data holds a `"game":[` array. */
  predicate HasGameData(f: Fetched) {
    var contentType := if f.contentType.Some? then f.contentType.value else "";
    var isHtmlError := Contains(contentType, "text/html") || Contains(f.body, "<!doctype html>");
    !isHtmlError && Contains(f.body, "\"game\":[")
  }

  /** `checkTeammateGame`: a lookup that throws (`None`) means no team game. */
  predicate CheckTeammateGame(lookup: Option<Fetched>) {
    lookup.Some? && HasGameData(lookup.value)
  }

  /** A word at the start of a text is contained in it. */
  lemma ContainsPrefix(w: string, rest: string)
    ensures Contains(w + rest, w)
  {
    assert StartsAt(w + rest, 0, w) by {
      assert (w + rest)[0..|w|] == w;
    }
  }

  /** An HTML error page, told by its content type or its doctype, is never
      game data; any other body holding a `"game":[` array is. */
  lemma GameDataCases(contentType: Option<string>, body: string)
    ensures contentType.Some? && Contains(contentType.value, "text/html") ==> !HasGameData(Fetched(contentType, body))
    ensures Contains(body, "<!doctype html>") ==> !HasGameData(Fetched(contentType, body))
    ensures Contains(body, "\"game\":[") && !Contains(body, "<!doctype html>")
            && (contentType.None? || !Contains(contentType.value, "text/html"))
            ==> HasGameData(Fetched(contentType, body))
    ensures !Contains(body, "\"game\":[") ==> !HasGameData(Fetched(contentType, body))
  {
  }

  /** Any content type that starts "text/html" (with a charset or other
      parameters after it) and any body that starts with the doctype mark the
      page as an HTML error, whatever follows. */
  lemma HtmlPrefixIsNotGameData(params: string, body: string, rest: string)
    ensures !HasGameData(Fetched(Some("text/html" + params), body))
    ensures !HasGameData(Fetched(None, "<!doctype html>" + rest))
  {
    ContainsPrefix("text/html", params);
    ContainsPrefix("<!doctype html>", rest);
  }

  /** `n.toString()` for an integer. */
  function IntString(n: int): (s: string)
    ensures |s| >= 1
  {
    if n >= 0 then DecimalString(n) else "-" + DecimalString(-n)
  }

  /** `(parseInt(gameId) + 2).toString()`: the id of the same game on the
      teammate's side; "NaN" when the id does not start with a number. */
  function TeammateGameId(gameId: string): string {
    match ParseInt(gameId)
    case Some(n) => IntString(n + 2)
    case None => "NaN"
  }

  /** Reading an integer back from its text gives the integer. */
  lemma ParseIntString(n: int)
    ensures ParseInt(IntString(n)) == Some(n)
  {
    if n >= 0 {
      ParseIntDecimal(n);
    } else {
      var d := DecimalString(-n);
      ParseIntDecimal(-n);
      assert IsDigit(d[0]);
      assert ParseInt(d) == LeadingNumber(d);
      var s := "-" + d;
      assert s[0] == '-' && s[1..] == d;
    }
  }

  /** The teammate's game id reads back as the user's id plus two. */
  lemma TeammateGameIdPlusTwo(gameId: string)
    requires ParseInt(gameId).Some?
    ensures ParseInt(TeammateGameId(gameId)) == Some(ParseInt(gameId).value + 2)
  {
    ParseIntString(ParseInt(gameId).value + 2);
  }

  /** `checkGameType(request)` with the teammate lookup as a parameter: the
      game id is checked first, then the teammate; only then is the teammate's
      game (id plus two) looked up. */
  function CheckGameType(request: GameTypeCheckRequest, lookup: (string, string) -> Option<Fetched>)
    : (r: Result<GameTypeCheckResponse, CheckError>)
    ensures !Truthy(request.gameId) ==> r == Failure(MissingGameId)
    ensures Truthy(request.gameId) && !Truthy(request.teammateUsername) ==> r == Failure(MissingTeammate)
    ensures r.Success? <==> Truthy(request.gameId) && Truthy(request.teammateUsername)
    ensures r.Success? ==>
              r.value.gameId == request.gameId.value
              && (r.value.isTeamGame <==>
                    CheckTeammateGame(lookup(request.teammateUsername.value, TeammateGameId(request.gameId.value))))
  {
    if !Truthy(request.gameId) then Failure(MissingGameId)
    else if !Truthy(request.teammateUsername) then Failure(MissingTeammate)
    else
      var gameId := request.gameId.value;
      var teammateGameId := TeammateGameId(gameId);
      Success(GameTypeCheckResponse(gameId, CheckTeammateGame(lookup(request.teammateUsername.value, teammateGameId))))
  }

  /** A failed lookup, or one that finds an HTML page, reports a 1:1 game. */
  lemma FailedLookupIsOneOnOne(request: GameTypeCheckRequest, lookup: (string, string) -> Option<Fetched>)
    requires Truthy(request.gameId) && Truthy(request.teammateUsername)
    requires forall u, id :: lookup(u, id) == None
    ensures CheckGameType(request, lookup) == Success(GameTypeCheckResponse(request.gameId.value, false))
  {
  }
}
