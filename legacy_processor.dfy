// The older Python poller (background_tasks.py): the two OCR correction
// passes over a plate, the length gate, and the update-or-insert of a plate
// row in one transaction.

module LegacyProcessor {
  import opened Common

  // ---------------------------------------------------------------------
  // OCR corrections

  /** The positions `correct_plate_characters` looks at. */
  predicate CorrectedPosition(i: int) { i == 0 || i == 1 || i == 4 || i == 5 || i == 6 }

  /** `char_map.get(c, c)` for the map {'0': 'O', '1': 'I', '4': 'A',
      '5': 'S', '7': 'T', '8': 'B'}. */
  function CharMap(c: char): char
  {
    if c == '0' then 'O'
    else if c == '1' then 'I'
    else if c == '4' then 'A'
    else if c == '5' then 'S'
    else if c == '7' then 'T'
    else if c == '8' then 'B'
    else c
  }

  /** `correct_plate_characters`: map the characters at positions 0, 1, 4,
      5 and 6 and keep every other one. */
  function CorrectPlateCharacters(plate: string): (r: string)
    ensures |r| == |plate|
    ensures forall i :: 0 <= i < |plate| ==>
      r[i] == if CorrectedPosition(i) then CharMap(plate[i]) else plate[i]
  {
    seq(|plate|, i requires 0 <= i < |plate| => if CorrectedPosition(i) then CharMap(plate[i]) else plate[i])
  }

  /** The specification of `replace_zero_with_O`: every '0' outside
      positions 3 and 4 becomes 'O'. */
  function ZeroReplaced(plate: string): (r: string)
    ensures |r| == |plate|
  {
    seq(|plate|, i requires 0 <= i < |plate| => if plate[i] == '0' && !(i == 3 || i == 4) then 'O' else plate[i])
  }

  /** `replace_zero_with_O`, building the result one character at a time. */
  method ReplaceZeroWithO(plate: string) returns (modified: string)
    ensures modified == ZeroReplaced(plate)
  {
    modified := "";
    var i := 0;
    while i < |plate|
      invariant 0 <= i <= |plate|
      invariant modified == ZeroReplaced(plate)[..i]
    {
      if plate[i] == '0' && !(i == 3 || i == 4) {
        modified := modified + "O";
      } else {
        modified := modified + [plate[i]];
      }
      i := i + 1;
    }
  }

  /** `replace_zero_with_O` changes only '0's, and leaves a '0' only at
      position 3 or 4. */
  lemma {:induction false} ZeroReplacedSpec(plate: string)
    ensures var r := ZeroReplaced(plate);
      (forall i :: 0 <= i < |r| && r[i] == '0' ==> i == 3 || i == 4)
      && (forall i :: 0 <= i < |r| && r[i] != plate[i] ==> plate[i] == '0' && r[i] == 'O')
  {
  }

  /** No character of the map's range is one of its keys. */
  lemma {:induction false} CharMapIdempotent(c: char)
    ensures CharMap(CharMap(c)) == CharMap(c)
  {
  }

  /** Applying either pass twice gives the same result as applying it
      once. */
  lemma {:induction false} CorrectionsIdempotent(plate: string)
    ensures CorrectPlateCharacters(CorrectPlateCharacters(plate)) == CorrectPlateCharacters(plate)
    ensures ZeroReplaced(ZeroReplaced(plate)) == ZeroReplaced(plate)
  {
    var once := CorrectPlateCharacters(plate);
    forall i | 0 <= i < |plate|
      ensures CorrectPlateCharacters(once)[i] == once[i]
    {
      CharMapIdempotent(plate[i]);
    }
  }

  /** The plate `process_plate_data` works with: both passes, position
      corrections first. */
  function CorrectedPlate(plate: string): (r: string)
    ensures |r| == |plate|
  {
    ZeroReplaced(CorrectPlateCharacters(plate))
  }

  /** After both passes a '0' can survive only at position 3: position 4 was
      already mapped by the first pass. */
  lemma {:induction false} CorrectedPlateZeros(plate: string)
    ensures forall i :: 0 <= i < |plate| && CorrectedPlate(plate)[i] == '0' ==> i == 3
  {
    var first := CorrectPlateCharacters(plate);
    ZeroReplacedSpec(first);
    forall i | 0 <= i < |plate| && CorrectedPlate(plate)[i] == '0' ensures i == 3 {
      assert first[i] == '0';
    }
  }

  // ---------------------------------------------------------------------
  // The table

  /** A JSON value from the DVLA response. */
  datatype JsonValue = JString(s: string) | JNumber(n: int) | JOther

  /** The columns the poller writes. `recentCaptureTime` is nullable. */
  datatype LegacyRow = LegacyRow(
    id: nat,
    plateNumber: string,
    captureTime: int,
    recentCaptureTime: Option<int>,
    imageData: string,
    carMake: JsonValue,
    carColor: JsonValue,
    fuelType: JsonValue,
    motStatus: JsonValue,
    taxStatus: JsonValue,
    yearOfManufacture: Option<JsonValue>)

  /** The statements that can raise inside the `try`. */
  datatype LegacyStep = Select | Update | Insert | Commit

  datatype Outcome = BadLength | Refreshed | AlreadyNewer | Inserted(id: nat) | NotInserted | RolledBack

  /** `vehicle_details.get(key, default)`. */
  function GetOr(details: map<string, JsonValue>, key: string, default: JsonValue): (v: JsonValue)
    ensures key in details ==> v == details[key]
    ensures key !in details ==> v == default
  {
    if key in details then details[key] else default
  }

  /** The new row: both capture times are the detection time, the image is
      the grabbed frame, and a missing make, colour, fuel type, MOT or tax
      status is 'Unknown' (the year stays NULL). */
  function NewLegacyRow(id: nat, plate: string, captureTime: int, image: string,
                        details: map<string, JsonValue>): LegacyRow
  {
    var unknown := JString("Unknown");
    LegacyRow(id, plate, captureTime, Some(captureTime), image,
              GetOr(details, "make", unknown), GetOr(details, "colour", unknown),
              GetOr(details, "fuelType", unknown), GetOr(details, "motStatus", unknown),
              GetOr(details, "taxStatus", unknown),
              if "yearOfManufacture" in details then Some(details["yearOfManufacture"]) else None)
  }

  /** `SELECT … WHERE plate_number = %s` then `fetchone()`: the first
      matching row. */
  function FirstRowOf(rows: seq<LegacyRow>, plate: string): (r: Option<nat>)
    ensures r.Some? ==> r.value < |rows| && rows[r.value].plateNumber == plate
    ensures r.Some? ==> forall j :: 0 <= j < r.value ==> rows[j].plateNumber != plate
    ensures r.None? ==> forall j :: 0 <= j < |rows| ==> rows[j].plateNumber != plate
  {
    if rows == [] then None
    else if rows[|rows| - 1].plateNumber == plate && FirstRowOf(rows[..|rows| - 1], plate).None?
    then Some(|rows| - 1)
    else FirstRowOf(rows[..|rows| - 1], plate)
  }

  /** A truthy Python value: a non-empty image string, a non-empty dict. */
  predicate ImageTruthy(image: Option<string>) { image.Some? && image.value != "" }
  predicate DetailsTruthy(details: Option<map<string, JsonValue>>) { details.Some? && details.value != map[] }

  /** The table after one committed run of `process_plate_data` on a plate
      of valid length. */
  function LegacyApply(rows: seq<LegacyRow>, nextId: nat, plate: string, captureTime: int,
                       image: Option<string>, details: Option<map<string, JsonValue>>): seq<LegacyRow>
  {
    match FirstRowOf(rows, plate)
    case Some(i) =>
      if rows[i].recentCaptureTime.None? || rows[i].recentCaptureTime.value < captureTime
      then rows[i := rows[i].(recentCaptureTime := Some(captureTime))]
      else rows
    case None =>
      if ImageTruthy(image) && DetailsTruthy(details)
      then rows + [NewLegacyRow(nextId, plate, captureTime, image.value, details.value)]
      else rows
  }

  /** The plate a valid call works with; `None` when the length gate
      rejects the raw plate. */
  predicate LengthOk(plate: string) { 7 <= |plate| <= 8 }

  predicate UniqueLegacyPlates(rows: seq<LegacyRow>)
  {
    forall i, j :: 0 <= i < j < |rows| ==> rows[i].plateNumber != rows[j].plateNumber
  }

  /** The order of recent capture times: NULL below every time. */
  predicate NotLater(a: Option<int>, b: Option<int>)
  {
    a.None? || (b.Some? && a.value <= b.value)
  }

  /** `recent_capture_time` never goes backwards, no other column of an
      existing row changes, and no row disappears. */
  lemma {:induction false} LegacyApplyMonotone(rows: seq<LegacyRow>, nextId: nat, plate: string, captureTime: int,
                                               image: Option<string>, details: Option<map<string, JsonValue>>)
    ensures var after := LegacyApply(rows, nextId, plate, captureTime, image, details);
      |after| >= |rows|
      && forall j :: 0 <= j < |rows| ==>
           NotLater(rows[j].recentCaptureTime, after[j].recentCaptureTime)
           && after[j] == rows[j].(recentCaptureTime := after[j].recentCaptureTime)
  {
  }

  /** A row is added only for an unknown plate with both an image and
      registry details; it carries the detection time twice and the image,
      each of make, colour, fuel type, MOT and tax status as the details
      give it or 'Unknown' when they lack it, and the year only when the
      details have one. */
  lemma {:induction false} LegacyApplyInserts(rows: seq<LegacyRow>, nextId: nat, plate: string, captureTime: int,
                                              image: Option<string>, details: Option<map<string, JsonValue>>)
    ensures var after := LegacyApply(rows, nextId, plate, captureTime, image, details);
      (|after| > |rows| <==> FirstRowOf(rows, plate).None? && ImageTruthy(image) && DetailsTruthy(details))
      && (|after| > |rows| ==>
            |after| == |rows| + 1 && after[|rows|].plateNumber == plate
            && after[|rows|].captureTime == captureTime
            && after[|rows|].recentCaptureTime == Some(captureTime)
            && after[|rows|].imageData == image.value
            && var d := details.value;
            var r := after[|rows|];
            && ("make" in d ==> r.carMake == d["make"]) && ("make" !in d ==> r.carMake == JString("Unknown"))
            && ("colour" in d ==> r.carColor == d["colour"]) && ("colour" !in d ==> r.carColor == JString("Unknown"))
            && ("fuelType" in d ==> r.fuelType == d["fuelType"])
            && ("fuelType" !in d ==> r.fuelType == JString("Unknown"))
            && ("motStatus" in d ==> r.motStatus == d["motStatus"])
            && ("motStatus" !in d ==> r.motStatus == JString("Unknown"))
            && ("taxStatus" in d ==> r.taxStatus == d["taxStatus"])
            && ("taxStatus" !in d ==> r.taxStatus == JString("Unknown"))
            && (r.yearOfManufacture.Some? <==> "yearOfManufacture" in d)
            && (r.yearOfManufacture.Some? ==> r.yearOfManufacture.value == d["yearOfManufacture"]))
  {
  }

  /** Sequential runs keep one row per plate. */
  lemma {:induction false} LegacyApplyKeepsUnique(rows: seq<LegacyRow>, nextId: nat, plate: string, captureTime: int,
                                                  image: Option<string>, details: Option<map<string, JsonValue>>)
    requires UniqueLegacyPlates(rows)
    ensures UniqueLegacyPlates(LegacyApply(rows, nextId, plate, captureTime, image, details))
  {
    var after := LegacyApply(rows, nextId, plate, captureTime, image, details);
    if |after| > |rows| {
      assert after[..|rows|] == rows;
      forall i, j | 0 <= i < j < |after| ensures after[i].plateNumber != after[j].plateNumber {
        if j == |rows| {
          assert after[i] == rows[i];
        }
      }
    }
  }

  // ---------------------------------------------------------------------
  // The stateful part

  class LegacyStore {
    var rows: seq<LegacyRow>
    /** The next value of the `id` sequence (not transactional). */
    var nextId: nat

    ghost predicate Valid()
      reads this
    {
      UniqueLegacyPlates(rows)
    }

    constructor ()
      ensures Valid() && rows == [] && nextId == 1
    {
      rows := [];
      nextId := 1;
    }

    /** `process_plate_data(license_plate, capture_time)`. The frame grab
        and the DVLA answer are inputs; they are used only for a plate with
        no row. `failAt` names the statement that raises, after which the
        transaction is rolled back. A `failAt` naming a statement this path
        does not run (an INSERT on the refresh path, say) is taken as a
        failing COMMIT: the outcome, a rollback, is the same. The source
        returns nothing; `outcome` names the branch it logs. The SERIAL id
        sequence advances whenever the INSERT path is reached, even when the
        transaction then rolls back. */
    method ProcessPlateData(licensePlate: string, captureTime: int, image: Option<string>,
                            details: Option<map<string, JsonValue>>, failAt: Option<LegacyStep>)
      returns (outcome: Outcome)
      requires Valid()
      modifies this
      ensures Valid()
      ensures !LengthOk(licensePlate) ==> outcome == BadLength && rows == old(rows) && nextId == old(nextId)
      ensures LengthOk(licensePlate) && failAt.None? ==>
        rows == LegacyApply(old(rows), old(nextId), CorrectedPlate(licensePlate), captureTime, image, details)
      ensures failAt.Some? ==> rows == old(rows)
      ensures outcome.Inserted? ==> outcome.id == old(nextId) && |rows| == |old(rows)| + 1
      ensures LengthOk(licensePlate) && failAt.Some? ==> outcome == RolledBack
      ensures LengthOk(licensePlate) && failAt.None? ==>
        match FirstRowOf(old(rows), CorrectedPlate(licensePlate))
        case Some(i) =>
          outcome == (if old(rows)[i].recentCaptureTime.None? || old(rows)[i].recentCaptureTime.value < captureTime
                      then Refreshed else AlreadyNewer)
        case None =>
          outcome == (if ImageTruthy(image) && DetailsTruthy(details) then Inserted(old(nextId)) else NotInserted)
      ensures LengthOk(licensePlate) ==>
        nextId == old(nextId) +
          (if failAt != Some(Select) && FirstRowOf(old(rows), CorrectedPlate(licensePlate)).None?
              && ImageTruthy(image) && DetailsTruthy(details)
           then 1 else 0)
    {
      var corrected := CorrectPlateCharacters(licensePlate);
      corrected := ReplaceZeroWithO(corrected);
      if !LengthOk(licensePlate) {
        return BadLength;
      }
      if failAt == Some(Select) {
        return RolledBack;
      }
      var found := FirstRowOf(rows, corrected);
      var working := rows;
      match found {
        case Some(i) =>
          var recent := rows[i].recentCaptureTime;
          if recent.None? || recent.value < captureTime {
            if failAt == Some(Update) {
              return RolledBack;
            }
            working := rows[i := rows[i].(recentCaptureTime := Some(captureTime))];
            outcome := Refreshed;
          } else {
            outcome := AlreadyNewer;
          }
        case None =>
          if ImageTruthy(image) && DetailsTruthy(details) {
            var id := nextId;
            nextId := nextId + 1;
            if failAt == Some(Insert) {
              return RolledBack;
            }
            working := rows + [NewLegacyRow(id, corrected, captureTime, image.value, details.value)];
            outcome := Inserted(id);
          } else {
            outcome := NotInserted;
          }
      }
      if failAt.Some? {
        return RolledBack;
      }
      LegacyApplyKeepsUnique(rows, old(nextId), corrected, captureTime, image, details);
      rows := working;
    }
  }
}
