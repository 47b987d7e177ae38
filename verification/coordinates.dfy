/**
 * The coordinate pass shared by `checkAndUpdateAddresses` and
 * `POST /api/update-coordinates`: for every store data row, one update of
 * columns A:B of that row — the geocoded latitude and longitude of an in-use
 * store with an address, an empty pair otherwise — written in one batch.
 *
 * The geocoder is a parameter: for the row index and the address it answers
 * with coordinates (as the texts written to the sheet), with no result, or
 * with a failure.
 */
module Coordinates {
  import opened Wrappers
  import opened Text
  import opened TtlCache
  import opened Sheets

  datatype GeoResult = Found(latitude: string, longitude: string) | NoResult | GeoFailed

  /** The two cells written into columns A:B of a row. */
  datatype CellValues = Clear | Write(latitude: string, longitude: string)

  /** One entry of the batch: a range and the values put there. */
  datatype Update = Update(range: string, values: CellValues)

  /** Columns A:B of sheet row i + 2: data row i sits under the one header row, counted from 1. */
  function RowRange(i: nat): string
  {
    STORE_SHEET_NAME + "!A" + NatToString(i + 2) + ":B" + NatToString(i + 2)
  }

  /** Trading status (column E) is "사용". */
  predicate InUse(row: Row)
  {
    Cell(row, 4) == "사용"
  }

  /** An in-use store whose address (column D) is not blank: the rows that are geocoded. */
  predicate NeedsGeocode(row: Row)
  {
    InUse(row) && Trim(Cell(row, 3)) != ""
  }

  /** What data row i gets: the found coordinates, or an empty pair for every other case. */
  function RowValues(row: Row, i: nat, geocode: (nat, string) -> GeoResult): CellValues
  {
    if !NeedsGeocode(row) then Clear
    else
      match geocode(i, Cell(row, 3))
      case Found(lat, lng) => Write(lat, lng)
      case NoResult => Clear
      case GeoFailed => Clear
  }

  /** The batch built from the data rows, in row order. */
  function Plan(rows: seq<Row>, geocode: (nat, string) -> GeoResult): seq<Update>
  {
    if rows == [] then []
    else
      var n := |rows| - 1;
      Plan(rows[..n], geocode) + [Update(RowRange(n), RowValues(rows[n], n, geocode))]
  }

  /** The data rows after which the pass pauses for one second: one pause per geocoder call. */
  function Paused(rows: seq<Row>): seq<nat>
  {
    if rows == [] then []
    else
      var n := |rows| - 1;
      Paused(rows[..n]) + (if NeedsGeocode(rows[n]) then [n] else [])
  }

  /** The loop over the data rows: the batch it collects and the rows after which it pauses. */
  method CollectUpdates(rows: seq<Row>, geocode: (nat, string) -> GeoResult)
    returns (updates: seq<Update>, paused: seq<nat>)
    ensures updates == Plan(rows, geocode)
    ensures paused == Paused(rows)
  {
    updates := [];
    paused := [];
    for i := 0 to |rows|
      invariant updates == Plan(rows[..i], geocode)
      invariant paused == Paused(rows[..i])
    {
      assert rows[..i + 1][..i] == rows[..i];
      var row := rows[i];
      if Cell(row, 4) == "사용" {
        if Trim(Cell(row, 3)) == "" {
          updates := updates + [Update(RowRange(i), Clear)];
          continue;
        }
        var result := geocode(i, Cell(row, 3));
        if result.Found? {
          updates := updates + [Update(RowRange(i), Write(result.latitude, result.longitude))];
        } else {
          updates := updates + [Update(RowRange(i), Clear)];
        }
      } else {
        updates := updates + [Update(RowRange(i), Clear)];
      }
      if Cell(row, 4) == "사용" {
        paused := paused + [i];
      }
    }
    assert rows[..|rows|] == rows;
  }

  // ---------------------------------------------------------------------------
  // What a batch says

  /** Every data row gets exactly one update, in row order, naming its own sheet row. */
  lemma {:induction false} PlanAt(rows: seq<Row>, geocode: (nat, string) -> GeoResult)
    ensures |Plan(rows, geocode)| == |rows|
    ensures forall i :: 0 <= i < |rows| ==>
      Plan(rows, geocode)[i] == Update(RowRange(i), RowValues(rows[i], i, geocode))
  {
    if rows != [] {
      var n := |rows| - 1;
      PlanAt(rows[..n], geocode);
    }
  }

  /**
   * A row gets coordinates exactly when it is in use, has an address, and the
   * geocoder found that address; then they are the ones found.
   */
  lemma RowValuesWrite(row: Row, i: nat, geocode: (nat, string) -> GeoResult)
    ensures RowValues(row, i, geocode).Write? <==> NeedsGeocode(row) && geocode(i, Cell(row, 3)).Found?
    ensures RowValues(row, i, geocode).Write? ==>
      RowValues(row, i, geocode) == Write(geocode(i, Cell(row, 3)).latitude, geocode(i, Cell(row, 3)).longitude)
  {
  }

  /** The geocoder is consulted for no row but the in-use rows with an address. */
  lemma {:induction false} PlanIgnoresOtherRows(rows: seq<Row>, g1: (nat, string) -> GeoResult, g2: (nat, string) -> GeoResult)
    requires forall i :: 0 <= i < |rows| && NeedsGeocode(rows[i]) ==> g1(i, Cell(rows[i], 3)) == g2(i, Cell(rows[i], 3))
    ensures Plan(rows, g1) == Plan(rows, g2)
  {
    if rows != [] {
      var n := |rows| - 1;
      PlanIgnoresOtherRows(rows[..n], g1, g2);
    }
  }

  /** Two digit strings joined around ":B" determine each other. */
  lemma ColonSplit(a: string, b: string)
    requires IsDigits(a) && IsDigits(b)
    requires a + ":B" + a == b + ":B" + b
    ensures a == b
  {
    var s := a + ":B" + a;
    var t := b + ":B" + b;
    assert s[|a|] == ':' && t[|b|] == ':';
    if |a| != |b| {
      assert false;
    }
    assert a == s[..|a|] && b == t[..|b|];
  }

  /** Ranges name distinct rows: no two updates of one batch touch the same cells. */
  lemma RangesDistinct(i: nat, j: nat)
    requires i != j
    ensures RowRange(i) != RowRange(j)
  {
    if RowRange(i) == RowRange(j) {
      var p := STORE_SHEET_NAME + "!A";
      var a := NatToString(i + 2);
      var b := NatToString(j + 2);
      assert RowRange(i) == p + (a + ":B" + a);
      assert RowRange(j) == p + (b + ":B" + b);
      assert a + ":B" + a == RowRange(i)[|p|..];
      ColonSplit(a, b);
      NatToStringInjective(i + 2, j + 2);
    }
  }

  /** The pass pauses after exactly the geocoded rows, once each, in row order. */
  lemma {:induction false} PausedExact(rows: seq<Row>)
    ensures forall k :: k in Paused(rows) <==> 0 <= k < |rows| && NeedsGeocode(rows[k])
    ensures forall a, b :: 0 <= a < b < |Paused(rows)| ==> Paused(rows)[a] < Paused(rows)[b]
  {
    if rows != [] {
      var n := |rows| - 1;
      PausedExact(rows[..n]);
      var p := Paused(rows[..n]);
      assert forall k :: k in p ==> k < n;
      if NeedsGeocode(rows[n]) {
        assert Paused(rows) == p + [n];
        forall a, b | 0 <= a < b < |p| + 1
          ensures (p + [n])[a] < (p + [n])[b]
        {
          if b == |p| {
            assert p[a] in p;
          }
        }
      } else {
        assert Paused(rows) == p;
      }
    }
  }

  // ---------------------------------------------------------------------------
  // The pass

  /** How one pass ends; the batch is what was handed to batchUpdate. */
  datatype PassOutcome =
    | SheetUnreadable                 // the store sheet could not be read
    | NothingToWrite                  // no data rows, so no batch
    | Written(batch: seq<Update>)     // batchUpdate succeeded
    | WriteFailed(batch: seq<Update>) // batchUpdate failed

  /** One pass at time now: the store rows come through the cache; the write outcome is a parameter. */
  function PassSpec(st: CacheState<Payload>, now: int, read: string -> SheetRead,
                    geocode: (nat, string) -> GeoResult, writeOk: bool)
    : (r: (PassOutcome, CacheState<Payload>))
    requires st.Valid() && Typed(st)
    ensures r.1.Valid() && Typed(r.1)
  {
    var (values, st1) := SheetFetch(st, STORE_SHEET_NAME, now, read);
    if values.Err? then (SheetUnreadable, st1)
    else
      var updates := Plan(Skip(values.value, 1), geocode);
      if |updates| == 0 then (NothingToWrite, st1)
      else if writeOk then (Written(updates), st1)
      else (WriteFailed(updates), st1)
  }

  /** The shared body of both callers, on the server's cache. */
  method CoordinatePass(cache: TtlCache<Payload>, now: int, read: string -> SheetRead,
                        geocode: (nat, string) -> GeoResult, writeOk: bool)
    returns (outcome: PassOutcome)
    requires cache.Valid() && Typed(cache.State())
    modifies cache
    ensures cache.Valid() && Typed(cache.State())
    ensures (outcome, cache.State()) == PassSpec(old(cache.State()), now, read, geocode, writeOk)
  {
    var storeValues := GetSheetValues(cache, STORE_SHEET_NAME, now, read);
    if storeValues.Err? {
      return SheetUnreadable;
    }
    var storeRows := Skip(storeValues.value, 1);
    var updates, _ := CollectUpdates(storeRows, geocode);
    if |updates| == 0 {
      return NothingToWrite;
    }
    if writeOk {
      outcome := Written(updates);
    } else {
      outcome := WriteFailed(updates);
    }
  }

  /** The endpoint's answer: the number of updates written (0 without a batch), or a 500. */
  function Response(outcome: PassOutcome): Result<nat>
  {
    match outcome
    case Written(batch) => Ok(|batch|)
    case NothingToWrite => Ok(0)
    case SheetUnreadable => Err(ExternalServiceError)
    case WriteFailed(_) => Err(ExternalServiceError)
  }

  /** `POST /api/update-coordinates`. */
  method UpdateCoordinates(cache: TtlCache<Payload>, now: int, read: string -> SheetRead,
                           geocode: (nat, string) -> GeoResult, writeOk: bool)
    returns (response: Result<nat>)
    requires cache.Valid() && Typed(cache.State())
    modifies cache
    ensures cache.Valid() && Typed(cache.State())
    ensures var (outcome, st) := PassSpec(old(cache.State()), now, read, geocode, writeOk);
      response == Response(outcome) && cache.State() == st
  {
    var outcome := CoordinatePass(cache, now, read, geocode, writeOk);
    response := Response(outcome);
  }

  /** `checkAndUpdateAddresses`: the same pass, every failure logged and swallowed. */
  method CheckAndUpdateAddresses(cache: TtlCache<Payload>, now: int, read: string -> SheetRead,
                                 geocode: (nat, string) -> GeoResult, writeOk: bool)
    requires cache.Valid() && Typed(cache.State())
    modifies cache
    ensures cache.Valid() && Typed(cache.State())
    ensures cache.State() == PassSpec(old(cache.State()), now, read, geocode, writeOk).1
  {
    var _ := CoordinatePass(cache, now, read, geocode, writeOk);
  }

  /**
   * A pass reads the store sheet through the cache (cached rows while live, a
   * fresh read otherwise); a failed read ends the pass; otherwise the batch
   * has one update per data row (so there is no batch exactly when the sheet
   * has no data row), and a successful batch is reported with that count.
   * The write does not invalidate the cache: after the pass the store sheet's
   * key still holds, live, the rows the batch was planned from, and every
   * other key is as it was or gone.
   */
  lemma PassResult(st: CacheState<Payload>, now: int, read: string -> SheetRead,
                   geocode: (nat, string) -> GeoResult, writeOk: bool)
    requires st.Valid() && Typed(st)
    ensures var (outcome, st2) := PassSpec(st, now, read, geocode, writeOk);
      var values := SheetAnswer(st, STORE_SHEET_NAME, now, read);
      var key := SheetKey(STORE_SHEET_NAME);
      && (outcome.SheetUnreadable? <==> values.Err?)
      && (values.Ok? ==>
            var rows := Skip(values.value, 1);
            && (outcome.NothingToWrite? <==> rows == [])
            && (rows != [] ==> outcome.batch == Plan(rows, geocode) && |outcome.batch| == |rows|)
            && (Response(outcome).Ok? <==> rows == [] || writeOk)
            && (Response(outcome).Ok? ==> Response(outcome).value == |rows|)
            && key in st2.entries && st2.entries[key].data == Rows(values.value)
            && st2.entries[key].LiveAt(now))
      && (forall k :: k in st2.entries && k != key ==> k in st.entries && st2.entries[k] == st.entries[k])
  {
    SheetFetchAnswer(st, STORE_SHEET_NAME, now, read);
    SheetFetchOthers(st, STORE_SHEET_NAME, now, read);
    var values := SheetAnswer(st, STORE_SHEET_NAME, now, read);
    if values.Ok? {
      PlanAt(Skip(values.value, 1), geocode);
    }
  }
}
