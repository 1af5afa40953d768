// The detection-event processor of the ingestion worker
// (worker/src/index.ts): plate extraction from the webhook payload, the
// UK / INTERNATIONAL registry policy, and the transactional upsert of a
// plate row together with the `app_state.last_plate_update` marker.

module DetectionWorker {
  import opened Common

  /** The registry's answer (the `VehicleDetails` interface). */
  datatype VehicleDetails = VehicleDetails(
    make: string,
    colour: string,
    fuelType: string,
    motStatus: string,
    taxStatus: string,
    motExpiryDate: Option<string>,
    taxDueDate: Option<string>,
    yearOfManufacture: int,
    monthOfFirstRegistration: string)

  /** One row of `license_plates`, as the worker reads and writes it. */
  datatype PlateRow = PlateRow(
    id: nat,
    plateNumber: string,
    captureTime: int,
    recentCaptureTime: int,
    imageUrl: Option<string>,
    videoUrl: Option<string>,
    carMake: Option<string>,
    carColor: Option<string>,
    fuelType: Option<string>,
    motStatus: Option<string>,
    taxStatus: Option<string>,
    motExpiryDate: Option<string>,
    taxDueDate: Option<string>,
    yearOfManufacture: Option<int>,
    monthOfFirstRegistration: Option<string>,
    createdAt: int,
    updatedAt: int)

  /** The steps of `processPlateData`, in order: taking a pooled
      connection, then the statements of the transaction. A failure at a
      statement (connection loss, constraint, a value the column type
      refuses) sends control to ROLLBACK; a failure to connect happens
      before the `try` and escapes. */
  datatype TxStep = Connect | Begin | Select | Write | Marker | Commit

  /** The webhook body as far as the worker looks at it:
      `alarm.triggers[0].value` and `alarm.thumbnail`. */
  datatype Payload = Payload(triggerValue: Option<string>, thumbnail: Option<string>)

  /** The worker's environment: `APP_REGION` (default 'UK') and
      `ENABLE_INTERNATIONAL_API`. */
  datatype Config = Config(appRegion: string, enableInternationalApi: Option<string>)

  /** What the webhook handler decides to do with one detection. */
  datatype Decision = Ignore | Drop | Save(plate: string, details: Option<VehicleDetails>)

  // ---------------------------------------------------------------------
  // Pure part of the handler

  /** JavaScript `x || null` on an optional string. */
  function OrNull(x: Option<string>): (r: Option<string>)
    ensures r.Some? ==> x == r && r.value != ""
    ensures x.Some? && x.value != "" ==> r == x
  {
    if x == Some("") then None else x
  }

  /** The plate the handler works on: present and non-empty (truthy), then
      upper-cased with every whitespace character removed. */
  function ExtractPlate(p: Payload): (r: Option<string>)
    ensures r.None? <==> (p.triggerValue.None? || p.triggerValue.value == "")
    ensures r.Some? ==> r.value == NormalizePlate(p.triggerValue.value)
  {
    match p.triggerValue
    case None => None
    case Some(v) => if v == "" then None else Some(NormalizePlate(v))
  }

  /** The region policy of the `/webhook` handler. `dvla` is the DVLA
      lookup's answer for the sanitised plate and `intl` the international
      lookup's; in UK mode a missing answer drops the event, otherwise the
      event is always saved, with the international answer only when
      `ENABLE_INTERNATIONAL_API` is exactly 'true'. */
  function Decide(p: Payload, config: Config, dvla: Option<VehicleDetails>,
                  intl: Option<VehicleDetails>): (d: Decision)
    ensures d.Ignore? <==> ExtractPlate(p).None?
    ensures config.appRegion == "UK" && ExtractPlate(p).Some? ==>
      (d.Drop? <==> dvla.None?)
    ensures config.appRegion == "UK" && d.Save? ==> d.details == dvla
    ensures config.appRegion != "UK" ==> !d.Drop?
    ensures config.appRegion != "UK" && d.Save? ==>
      d.details == (if config.enableInternationalApi == Some("true") then intl else None)
    ensures d.Save? ==> Some(d.plate) == ExtractPlate(p)
  {
    match ExtractPlate(p)
    case None => Ignore
    case Some(plate) =>
      if config.appRegion == "UK" then
        (if dvla.Some? then Save(plate, dvla) else Drop)
      else
        Save(plate, if config.enableInternationalApi == Some("true") then intl else None)
  }

  /** Plate text that differs only in letter case or in whitespace gives
      the same key: " ab12 cde " and "AB12CDE" are one plate. */
  lemma {:induction false} ExtractPlateCanonical(a: string, w: string, b: string, thumbnail: Option<string>)
    requires forall i :: 0 <= i < |w| ==> IsJsWhitespace(w[i])
    requires a + b != []
    ensures ExtractPlate(Payload(Some(a + w + b), thumbnail)) == ExtractPlate(Payload(Some(a + b), None))
    ensures ExtractPlate(Payload(Some(ToLower(a + b)), thumbnail)) == ExtractPlate(Payload(Some(a + b), None))
  {
    NormalizePlateDropsWhitespace(a, w, b);
    NormalizePlateIgnoresCase(a + b);
    assert |a + w + b| > 0 && |ToLower(a + b)| > 0;
  }

  // ---------------------------------------------------------------------
  // Specification of the upsert

  /** The index of the first row for `plate` (what `SELECT id ... WHERE
      plate_number = $1` followed by `rows[0]` picks). */
  function IndexOfPlate(rows: seq<PlateRow>, plate: string): (r: Option<nat>)
    ensures r.Some? ==> r.value < |rows| && rows[r.value].plateNumber == plate
    ensures r.Some? ==> forall j :: 0 <= j < r.value ==> rows[j].plateNumber != plate
    ensures r.None? ==> forall j :: 0 <= j < |rows| ==> rows[j].plateNumber != plate
  {
    if rows == [] then None
    else if rows[|rows| - 1].plateNumber == plate && IndexOfPlate(rows[..|rows| - 1], plate).None?
    then Some(|rows| - 1)
    else IndexOfPlate(rows[..|rows| - 1], plate)
  }

  /** The update of an existing row: with details, every vehicle attribute
      is overwritten (absent or empty dates and registration month become
      NULL); without, only the recent capture time, image and `updated_at`. */
  function UpdatedRow(row: PlateRow, thumbnail: Option<string>, details: Option<VehicleDetails>,
                      captureTime: int, dbNow: int): PlateRow
  {
    match details
    case None =>
      row.(recentCaptureTime := captureTime, imageUrl := thumbnail, updatedAt := dbNow)
    case Some(d) =>
      row.(recentCaptureTime := captureTime, imageUrl := thumbnail,
           carMake := Some(d.make), carColor := Some(d.colour), fuelType := Some(d.fuelType),
           motStatus := Some(d.motStatus), taxStatus := Some(d.taxStatus),
           motExpiryDate := OrNull(d.motExpiryDate), taxDueDate := OrNull(d.taxDueDate),
           yearOfManufacture := Some(d.yearOfManufacture),
           monthOfFirstRegistration := OrNull(Some(d.monthOfFirstRegistration)),
           updatedAt := dbNow)
  }

  /** The inserted row: both capture times are the detection time, every
      attribute comes from the details when there are any (`details?.x`)
      and is NULL otherwise. */
  function NewRow(id: nat, plate: string, thumbnail: Option<string>, details: Option<VehicleDetails>,
                  captureTime: int, dbNow: int): PlateRow
  {
    match details
    case None =>
      PlateRow(id, plate, captureTime, captureTime, thumbnail, None,
               None, None, None, None, None, None, None, None, None, dbNow, dbNow)
    case Some(d) =>
      PlateRow(id, plate, captureTime, captureTime, thumbnail, None,
               Some(d.make), Some(d.colour), Some(d.fuelType), Some(d.motStatus), Some(d.taxStatus),
               d.motExpiryDate, d.taxDueDate, Some(d.yearOfManufacture),
               Some(d.monthOfFirstRegistration), dbNow, dbNow)
  }

  /** The table after one committed observation of `plate`. */
  function Upsert(rows: seq<PlateRow>, nextId: nat, plate: string, thumbnail: Option<string>,
                  details: Option<VehicleDetails>, captureTime: int, dbNow: int): seq<PlateRow>
  {
    match IndexOfPlate(rows, plate)
    case Some(i) => rows[i := UpdatedRow(rows[i], thumbnail, details, captureTime, dbNow)]
    case None => rows + [NewRow(nextId, plate, thumbnail, details, captureTime, dbNow)]
  }

  /** At most one row per plate number. */
  predicate UniquePlates(rows: seq<PlateRow>)
  {
    forall i, j :: 0 <= i < j < |rows| ==> rows[i].plateNumber != rows[j].plateNumber
  }

  /** Every id is below the next value of the SERIAL sequence. */
  predicate IdsBelow(rows: seq<PlateRow>, nextId: nat)
  {
    forall i :: 0 <= i < |rows| ==> rows[i].id < nextId
  }

  /** Processed one after the other, observations never give a plate a
      second row: the upsert keeps plate numbers unique. */
  lemma UpsertKeepsPlatesUnique(rows: seq<PlateRow>, nextId: nat, plate: string, thumbnail: Option<string>,
                                details: Option<VehicleDetails>, captureTime: int, dbNow: int)
    requires UniquePlates(rows)
    ensures UniquePlates(Upsert(rows, nextId, plate, thumbnail, details, captureTime, dbNow))
  {
  }

  /** After the upsert the plate has exactly one row, and it carries the new
      recent capture time; the first capture time is kept when the row
      existed and is the detection time otherwise. */
  lemma UpsertRowForPlate(rows: seq<PlateRow>, nextId: nat, plate: string, thumbnail: Option<string>,
                          details: Option<VehicleDetails>, captureTime: int, dbNow: int)
    requires UniquePlates(rows)
    ensures var after := Upsert(rows, nextId, plate, thumbnail, details, captureTime, dbNow);
      var k := IndexOfPlate(after, plate);
      && k.Some?
      && after[k.value].recentCaptureTime == captureTime
      && after[k.value].imageUrl == thumbnail
      && after[k.value].captureTime ==
           (match IndexOfPlate(rows, plate) case Some(i) => rows[i].captureTime case None => captureTime)
      && |after| == |rows| + (if IndexOfPlate(rows, plate).Some? then 0 else 1)
  {
    var after := Upsert(rows, nextId, plate, thumbnail, details, captureTime, dbNow);
    match IndexOfPlate(rows, plate)
    case Some(i) =>
      assert after[i].plateNumber == plate;
      IndexOfPlateUnique(after, plate, i);
    case None =>
      IndexOfPlateUnique(after, plate, |rows|);
  }

  lemma IndexOfPlateUnique(rows: seq<PlateRow>, plate: string, i: nat)
    requires i < |rows| && rows[i].plateNumber == plate
    requires forall j :: 0 <= j < |rows| && j != i ==> rows[j].plateNumber != plate
    ensures IndexOfPlate(rows, plate) == Some(i)
  {
  }

  /** Rows of other plates are untouched by the upsert. */
  lemma UpsertLeavesOtherPlates(rows: seq<PlateRow>, nextId: nat, plate: string, thumbnail: Option<string>,
                                details: Option<VehicleDetails>, captureTime: int, dbNow: int, j: nat)
    requires j < |rows| && rows[j].plateNumber != plate
    ensures var after := Upsert(rows, nextId, plate, thumbnail, details, captureTime, dbNow);
      j < |after| && after[j] == rows[j]
  {
  }

  /** An update never changes the first capture time, the id, the plate or
      the video; without details it changes nothing but the recent capture
      time, the image and `updated_at`; with details every vehicle attribute
      takes the registry's value, except that an absent or empty date or
      registration month is stored as NULL. */
  lemma UpdatedRowKeeps(row: PlateRow, thumbnail: Option<string>, details: Option<VehicleDetails>,
                        captureTime: int, dbNow: int)
    ensures var u := UpdatedRow(row, thumbnail, details, captureTime, dbNow);
      && u.captureTime == row.captureTime && u.id == row.id && u.plateNumber == row.plateNumber
      && u.videoUrl == row.videoUrl && u.createdAt == row.createdAt
      && u.recentCaptureTime == captureTime && u.imageUrl == thumbnail && u.updatedAt == dbNow
      && (details.None? ==>
            u == row.(recentCaptureTime := captureTime, imageUrl := thumbnail, updatedAt := dbNow))
      && (details.Some? ==>
            var d := details.value;
            && u.carMake == Some(d.make) && u.carColor == Some(d.colour) && u.fuelType == Some(d.fuelType)
            && u.motStatus == Some(d.motStatus) && u.taxStatus == Some(d.taxStatus)
            && u.yearOfManufacture == Some(d.yearOfManufacture)
            && (u.motExpiryDate.Some? <==> d.motExpiryDate.Some? && d.motExpiryDate.value != "")
            && (u.motExpiryDate.Some? ==> u.motExpiryDate == d.motExpiryDate)
            && (u.taxDueDate.Some? <==> d.taxDueDate.Some? && d.taxDueDate.value != "")
            && (u.taxDueDate.Some? ==> u.taxDueDate == d.taxDueDate)
            && u.monthOfFirstRegistration ==
                 (if d.monthOfFirstRegistration == "" then None else Some(d.monthOfFirstRegistration)))
  {
  }

  /** An inserted row starts with both capture times at the detection
      time, no video and the given id; its vehicle attributes are the
      registry's values exactly as received (an empty date included) when
      there are details, and all NULL otherwise. */
  lemma NewRowStores(id: nat, plate: string, thumbnail: Option<string>, details: Option<VehicleDetails>,
                     captureTime: int, dbNow: int)
    ensures var r := NewRow(id, plate, thumbnail, details, captureTime, dbNow);
      && r.id == id && r.plateNumber == plate && r.imageUrl == thumbnail && r.videoUrl.None?
      && r.captureTime == captureTime && r.recentCaptureTime == captureTime
      && r.createdAt == dbNow && r.updatedAt == dbNow
      && (details.None? ==>
            r.carMake.None? && r.carColor.None? && r.fuelType.None? && r.motStatus.None?
            && r.taxStatus.None? && r.motExpiryDate.None? && r.taxDueDate.None?
            && r.yearOfManufacture.None? && r.monthOfFirstRegistration.None?)
      && (details.Some? ==>
            var d := details.value;
            && r.carMake == Some(d.make) && r.carColor == Some(d.colour) && r.fuelType == Some(d.fuelType)
            && r.motStatus == Some(d.motStatus) && r.taxStatus == Some(d.taxStatus)
            && r.motExpiryDate == d.motExpiryDate && r.taxDueDate == d.taxDueDate
            && r.yearOfManufacture == Some(d.yearOfManufacture)
            && r.monthOfFirstRegistration == Some(d.monthOfFirstRegistration))
  {
  }

  /** Two committed detections of the same plate, one after the other: one
      row, the first capture time from the first detection and the recent
      capture time from the second. */
  lemma {:induction false} TwoDetectionsOneRow(rows: seq<PlateRow>, nextId: nat, plate: string,
                                               t1: int, t2: int, img1: Option<string>, img2: Option<string>,
                                               d1: Option<VehicleDetails>, d2: Option<VehicleDetails>,
                                               now1: int, now2: int)
    requires UniquePlates(rows) && IndexOfPlate(rows, plate).None?
    ensures var mid := Upsert(rows, nextId, plate, img1, d1, t1, now1);
      var after := Upsert(mid, nextId + 1, plate, img2, d2, t2, now2);
      && UniquePlates(after)
      && |after| == |rows| + 1
      && IndexOfPlate(after, plate) == Some(|rows|)
      && after[|rows|].captureTime == t1
      && after[|rows|].recentCaptureTime == t2
  {
    var mid := Upsert(rows, nextId, plate, img1, d1, t1, now1);
    UpsertKeepsPlatesUnique(rows, nextId, plate, img1, d1, t1, now1);
    IndexOfPlateUnique(mid, plate, |rows|);
    var after := Upsert(mid, nextId + 1, plate, img2, d2, t2, now2);
    UpsertKeepsPlatesUnique(mid, nextId + 1, plate, img2, d2, t2, now2);
    IndexOfPlateUnique(after, plate, |rows|);
  }

  // ---------------------------------------------------------------------
  // The stateful part: the table, the marker and the transaction

  class PlateStore {
    /** `license_plates`, in insertion order. */
    var rows: seq<PlateRow>
    /** The next value of the `id` SERIAL sequence (not transactional). */
    var nextId: nat
    /** `app_state.last_plate_update` of the row with id 1. */
    var lastPlateUpdate: int

    ghost predicate Valid()
      reads this
    {
      UniquePlates(rows) && IdsBelow(rows, nextId)
    }

    constructor (startedAt: int)
      ensures Valid() && rows == [] && nextId == 1 && lastPlateUpdate == startedAt
    {
      rows := [];
      nextId := 1;
      lastPlateUpdate := startedAt;
    }

    /** The `SELECT id FROM license_plates WHERE plate_number = $1` scan. */
    method FindPlate(plate: string) returns (r: Option<nat>)
      ensures r == IndexOfPlate(rows, plate)
    {
      var i := 0;
      r := None;
      while i < |rows| && r.None?
        invariant 0 <= i <= |rows|
        invariant r.None? ==> forall j :: 0 <= j < i ==> rows[j].plateNumber != plate
        invariant r.Some? ==> r.value < i && rows[r.value].plateNumber == plate
                              && forall j :: 0 <= j < r.value ==> rows[j].plateNumber != plate
      {
        if rows[i].plateNumber == plate {
          r := Some(i);
        }
        i := i + 1;
      }
      match r
      case Some(k) => IndexOfPlateIs(rows, plate, k);
      case None =>
    }

    /** `processPlateData`: take a connection, then in one transaction
        update the plate's row or insert one, bump the marker and commit. A
        failure at any step rolls back both the row and the marker; an id
        drawn from the sequence by an INSERT stays drawn. The returned
        promise rejects (`settled` is false) when no connection can be had,
        or when a statement fails and the ROLLBACK in the `catch` fails as
        well. */
    method ProcessPlateData(plate: string, thumbnail: Option<string>, details: Option<VehicleDetails>,
                            captureTime: int, dbNow: int, failAt: Option<TxStep>, rollbackFails: bool)
      returns (settled: bool)
      requires Valid()
      modifies this
      ensures Valid()
      ensures settled <==> failAt.None? || (failAt.value != Connect && !rollbackFails)
      ensures failAt.None? ==>
        rows == Upsert(old(rows), old(nextId), plate, thumbnail, details, captureTime, dbNow)
        && lastPlateUpdate == dbNow
      ensures failAt.Some? ==> rows == old(rows) && lastPlateUpdate == old(lastPlateUpdate)
      ensures nextId == old(nextId) +
        (if IndexOfPlate(old(rows), plate).None?
            && failAt !in {Some(Connect), Some(Begin), Some(Select), Some(Write)}
         then 1 else 0)
    {
      if failAt == Some(Connect) {
        return false;
      }
      settled := failAt.None? || !rollbackFails;
      if failAt == Some(Begin) || failAt == Some(Select) {
        return;
      }
      var found := FindPlate(plate);
      var working: seq<PlateRow>;
      if failAt == Some(Write) {
        return;
      }
      match found {
        case Some(i) =>
          working := rows[i := UpdatedRow(rows[i], thumbnail, details, captureTime, dbNow)];
        case None =>
          working := rows + [NewRow(nextId, plate, thumbnail, details, captureTime, dbNow)];
          nextId := nextId + 1;
      }
      if failAt.Some? {
        return;
      }
      UpsertKeepsPlatesUnique(rows, old(nextId), plate, thumbnail, details, captureTime, dbNow);
      rows := working;
      lastPlateUpdate := dbNow;
    }

    /** `POST /webhook`: acknowledged with 200 (`Some(200)`) unless the
        awaited `processPlateData` rejects, in which case the error escapes
        the handler and no response is sent (`None`). The table and the
        marker change only when the decision is to save and the transaction
        commits. */
    method HandleWebhook(p: Payload, config: Config, dvla: Option<VehicleDetails>,
                         intl: Option<VehicleDetails>, captureTime: int, dbNow: int,
                         failAt: Option<TxStep>, rollbackFails: bool)
      returns (status: Option<int>)
      requires Valid()
      modifies this
      ensures Valid()
      ensures status.Some? ==> status.value == 200
      ensures var d := Decide(p, config, dvla, intl);
        && (status.None? <==> d.Save? && failAt.Some? && (failAt.value == Connect || rollbackFails))
        && (!d.Save? ==> rows == old(rows) && lastPlateUpdate == old(lastPlateUpdate) && nextId == old(nextId))
        && (d.Save? && failAt.None? ==>
              rows == Upsert(old(rows), old(nextId), d.plate, p.thumbnail, d.details, captureTime, dbNow)
              && lastPlateUpdate == dbNow)
        && (failAt.Some? ==> rows == old(rows) && lastPlateUpdate == old(lastPlateUpdate))
    {
      var d := Decide(p, config, dvla, intl);
      if d.Save? {
        var settled := ProcessPlateData(d.plate, p.thumbnail, d.details, captureTime, dbNow, failAt, rollbackFails);
        if !settled {
          return None;
        }
      }
      status := Some(200);
    }
  }

  lemma IndexOfPlateIs(rows: seq<PlateRow>, plate: string, k: nat)
    requires k < |rows| && rows[k].plateNumber == plate
    requires forall j :: 0 <= j < k ==> rows[j].plateNumber != plate
    ensures IndexOfPlate(rows, plate) == Some(k)
  {
  }
}
