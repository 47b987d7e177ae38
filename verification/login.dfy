/**
 * `POST /api/login`: an ordered, short-circuiting lookup of the submitted id —
 * the reserved inventory-mode ids first, then column C of the agent sheet,
 * then column H of the store sheet — answered as a tagged outcome.
 */
module Login {
  import opened Wrappers
  import opened Text
  import opened TtlCache
  import opened Catalog
  import opened Sheets

  /** The ids that open the inventory-only mode without reading any sheet. */
  const INVENTORY_MODE_IDS: seq<string> := ["JEGO306891", "JEGO315835", "JEGO314942", "JEGO316558", "JEGO316254"]

  /** The `storeInfo` of a successful store or inventory-mode login; coordinates are the texts given to parseFloat. */
  datatype StoreInfo = StoreInfo(id: string, name: string, manager: string, address: string,
                                 latitude: string, longitude: string, phone: string)

  datatype LoginOutcome =
    | BadRequest                       // 400: no id
    | InventoryMode(info: StoreInfo)   // reserved id
    | AgentLogin(agent: Agent)         // matched an agent row
    | StoreLogin(info: StoreInfo)      // matched a store row
    | NotFound                         // 404
    | ServerError                      // 500: a sheet could not be read

  /** The fixed record of an inventory-mode login. */
  function InventoryModeInfo(id: string): StoreInfo
  {
    StoreInfo(id, "재고관리 모드", "재고관리자", "", "37.5665", "126.9780", "")
  }

  /** `row[col] === id`: a missing cell never equals a string. */
  predicate MatchesAt(row: Row, col: nat, id: string)
  {
    col < |row| && row[col] == id
  }

  /** `Array.prototype.findIndex` with the MatchesAt test: the first matching row, if any. */
  function FindFirst(rows: seq<Row>, col: nat, id: string): (r: Option<nat>)
    ensures r.Some? ==> r.value < |rows| && MatchesAt(rows[r.value], col, id)
    ensures r.Some? ==> forall j :: 0 <= j < r.value ==> !MatchesAt(rows[j], col, id)
    ensures r.None? ==> forall j :: 0 <= j < |rows| ==> !MatchesAt(rows[j], col, id)
  {
    if rows == [] then None
    else if MatchesAt(rows[0], col, id) then Some(0)
    else
      match FindFirst(rows[1..], col, id)
      case None => None
      case Some(i) => Some(i + 1)
  }

  /** The `storeInfo` built from a matching store row (column H matched, so columns A to H exist). */
  function StoreInfoOf(row: Row): StoreInfo
  {
    StoreInfo(Cell(row, 7), Cell(row, 6), Cell(row, 13), Cell(row, 3),
              OrElse(Cell(row, 0), "0"), OrElse(Cell(row, 1), "0"), Cell(row, 11))
  }

  /** A submitted id that is missing or the empty string. */
  predicate Missing(storeId: Option<string>)
  {
    storeId.None? || storeId.value == ""
  }

  /** The login handler at time now, with its sheet reads going through the cache. */
  function LoginSpec(st: CacheState<Payload>, storeId: Option<string>, now: int, read: string -> SheetRead)
    : (r: (LoginOutcome, CacheState<Payload>))
    requires st.Valid() && Typed(st)
    ensures r.1.Valid() && Typed(r.1)
  {
    if Missing(storeId) then (BadRequest, st)
    else
      var id := storeId.value;
      if id in INVENTORY_MODE_IDS then (InventoryMode(InventoryModeInfo(id)), st)
      else
        var (agents, st1) := SheetFetch(st, AGENT_SHEET_NAME, now, read);
        if agents.Err? then (ServerError, st1)
        else
          var agentRows := Skip(agents.value, 1);
          match FindFirst(agentRows, 2, id)
          case Some(i) => (AgentLogin(AgentOf(agentRows[i])), st1)
          case None =>
            var (stores, st2) := SheetFetch(st1, STORE_SHEET_NAME, now, read);
            if stores.Err? then (ServerError, st2)
            else
              var storeRows := Skip(stores.value, 1);
              match FindFirst(storeRows, 7, id)
              case Some(j) => (StoreLogin(StoreInfoOf(storeRows[j])), st2)
              case None => (NotFound, st2)
  }

  /** `POST /api/login` on the server's cache. */
  method Login(cache: TtlCache<Payload>, storeId: Option<string>, now: int, read: string -> SheetRead)
    returns (outcome: LoginOutcome)
    requires cache.Valid() && Typed(cache.State())
    modifies cache
    ensures cache.Valid() && Typed(cache.State())
    ensures (outcome, cache.State()) == LoginSpec(old(cache.State()), storeId, now, read)
  {
    if Missing(storeId) {
      return BadRequest;
    }
    var id := storeId.value;
    if id in INVENTORY_MODE_IDS {
      return InventoryMode(InventoryModeInfo(id));
    }
    var agentValues := GetSheetValues(cache, AGENT_SHEET_NAME, now, read);
    if agentValues.Err? {
      return ServerError;
    }
    var agentRows := Skip(agentValues.value, 1);
    var agent := FindFirst(agentRows, 2, id);
    if agent.Some? {
      return AgentLogin(AgentOf(agentRows[agent.value]));
    }
    var storeValues := GetSheetValues(cache, STORE_SHEET_NAME, now, read);
    if storeValues.Err? {
      return ServerError;
    }
    var storeRows := Skip(storeValues.value, 1);
    var found := FindFirst(storeRows, 7, id);
    if found.Some? {
      return StoreLogin(StoreInfoOf(storeRows[found.value]));
    }
    return NotFound;
  }

  // ---------------------------------------------------------------------------
  // Properties

  /** No id: 400, and nothing is read. */
  lemma LoginMissingId(st: CacheState<Payload>, storeId: Option<string>, now: int, read: string -> SheetRead)
    requires st.Valid() && Typed(st) && Missing(storeId)
    ensures LoginSpec(st, storeId, now, read) == (BadRequest, st)
  {
  }

  /** A reserved id opens inventory mode under that id without reading any sheet. */
  lemma LoginReserved(st: CacheState<Payload>, id: string, now: int, read1: string -> SheetRead, read2: string -> SheetRead)
    requires st.Valid() && Typed(st) && id in INVENTORY_MODE_IDS
    ensures LoginSpec(st, Some(id), now, read1) == LoginSpec(st, Some(id), now, read2)
    ensures LoginSpec(st, Some(id), now, read1) == (InventoryMode(InventoryModeInfo(id)), st)
  {
    assert id != "" by { assert forall k :: k in INVENTORY_MODE_IDS ==> |k| == 10; }
  }

  /**
   * The lookup order, with each sheet answered through the cache (cached rows
   * while live, a fresh read otherwise): an unreadable agent sheet is a 500;
   * the first agent row whose column C is the id wins, and then the store
   * sheet plays no part; otherwise an unreadable store sheet is a 500, the
   * first store row whose column H is the id wins, and no match is a 404. The
   * store sheet is consulted after the agent sheet; unless that first read
   * evicted it from a full Map, its answer is the one the cache held before
   * the request.
   */
  lemma LoginOrder(st: CacheState<Payload>, id: string, now: int, read: string -> SheetRead, read2: string -> SheetRead)
    requires st.Valid() && Typed(st) && id != "" && id !in INVENTORY_MODE_IDS
    requires read2(AGENT_SHEET_NAME) == read(AGENT_SHEET_NAME)
    ensures var outcome := LoginSpec(st, Some(id), now, read).0;
      var agents := SheetAnswer(st, AGENT_SHEET_NAME, now, read);
      var stores := SheetAnswer(SheetFetch(st, AGENT_SHEET_NAME, now, read).1, STORE_SHEET_NAME, now, read);
      && (if agents.Err? then outcome == ServerError
          else
            var agentRows := Skip(agents.value, 1);
            if FindFirst(agentRows, 2, id).Some? then
              && outcome == AgentLogin(AgentOf(agentRows[FindFirst(agentRows, 2, id).value]))
              && LoginSpec(st, Some(id), now, read2).0 == outcome
            else if stores.Err? then outcome == ServerError
            else
              var storeRows := Skip(stores.value, 1);
              if FindFirst(storeRows, 7, id).Some? then outcome == StoreLogin(StoreInfoOf(storeRows[FindFirst(storeRows, 7, id).value]))
              else outcome == NotFound)
      && (|st.order| < MAX_CACHE_SIZE || !Cold(st, SheetKey(AGENT_SHEET_NAME), now) ==>
            stores == SheetAnswer(st, STORE_SHEET_NAME, now, read))
  {
    SheetFetchAnswer(st, AGENT_SHEET_NAME, now, read);
    SheetFetchAnswer(st, AGENT_SHEET_NAME, now, read2);
    var st1 := SheetFetch(st, AGENT_SHEET_NAME, now, read).1;
    SheetFetchAnswer(st1, STORE_SHEET_NAME, now, read);
    if |st.order| < MAX_CACHE_SIZE || !Cold(st, SheetKey(AGENT_SHEET_NAME), now) {
      StoreSheetKept(st, now, read);
    }
  }

  /** Reading the agent sheet without evicting leaves the store sheet's answer as it was. */
  lemma StoreSheetKept(st: CacheState<Payload>, now: int, read: string -> SheetRead)
    requires st.Valid() && Typed(st)
    requires |st.order| < MAX_CACHE_SIZE || !Cold(st, SheetKey(AGENT_SHEET_NAME), now)
    ensures var st1 := SheetFetch(st, AGENT_SHEET_NAME, now, read).1;
      SheetAnswer(st1, STORE_SHEET_NAME, now, read) == SheetAnswer(st, STORE_SHEET_NAME, now, read)
  {
    var storeKey := SheetKey(STORE_SHEET_NAME);
    assert storeKey != SheetKey(AGENT_SHEET_NAME) by {
      assert storeKey[6] != SheetKey(AGENT_SHEET_NAME)[6];
    }
    SheetFetchOthers(st, AGENT_SHEET_NAME, now, read);
    SheetFetchKeeps(st, AGENT_SHEET_NAME, now, read);
    var st1 := SheetFetch(st, AGENT_SHEET_NAME, now, read).1;
    assert storeKey in st1.entries <==> storeKey in st.entries;
  }
}
