/**
 * The reminder form (`Scheduler` component): an editable list of medicine
 * rows and a chat identifier, the auto-fill from extracted prescription
 * data, the validation gate on submit, and the request payload sent to the
 * schedule endpoint. React state setters become a class whose methods
 * replace the `chatId` and `medicines` fields. A single reading of
 * `Date.now()` becomes the parameter `now`; the readings taken while the
 * extracted items are mapped, one per item, become the function `clock`.
 * The result of the HTTP post becomes a parameter too.
 */
module ScheduleForm {
  import opened Wrappers
  import opened Duration

  /** One row of the form. An empty string stands for every falsy value of a field. */
  datatype Medicine = Medicine(id: int, name: string, dosage: string, time: string, duration: string)

  /** The four keys that the form's inputs update. */
  datatype Field = Name | Dosage | Time | DurationText

  function Blank(id: int): (m: Medicine)
    ensures m.id == id && IsBlank(m)
  {
    Medicine(id, "", "", "", "")
  }

  predicate IsBlank(m: Medicine) {
    m.name == "" && m.dosage == "" && m.time == "" && m.duration == ""
  }

  /** A row the submit gate accepts: every field the user types is filled in. */
  predicate IsComplete(m: Medicine) {
    m.name != "" && m.dosage != "" && m.time != "" && m.duration != ""
  }

  function Get(m: Medicine, f: Field): string {
    match f
    case Name => m.name
    case Dosage => m.dosage
    case Time => m.time
    case DurationText => m.duration
  }

  /** `{ ...med, [field]: value }` */
  function SetField(m: Medicine, f: Field, v: string): (r: Medicine)
    ensures r.id == m.id
    ensures Get(r, f) == v
    ensures forall g :: g != f ==> Get(r, g) == Get(m, g)
  {
    match f
    case Name => m.(name := v)
    case Dosage => m.(dosage := v)
    case Time => m.(time := v)
    case DurationText => m.(duration := v)
  }

  // ---------------------------------------------------------------------
  // List operations (the arguments of the state setters)
  // ---------------------------------------------------------------------

  /** `medicines.filter((med) => med.id !== id)` */
  function WithoutId(meds: seq<Medicine>, id: int): (r: seq<Medicine>)
    ensures |r| <= |meds|
    ensures forall m :: m in r <==> m in meds && m.id != id
  {
    if meds == [] then []
    else (if meds[0].id == id then [] else [meds[0]]) + WithoutId(meds[1..], id)
  }

  /** `medicines.map((med) => (med.id === id ? { ...med, [field]: value } : med))` */
  function UpdateWhere(meds: seq<Medicine>, id: int, f: Field, v: string): (r: seq<Medicine>)
    ensures |r| == |meds|
    ensures forall i :: 0 <= i < |meds| ==>
              r[i] == if meds[i].id == id then SetField(meds[i], f, v) else meds[i]
  {
    if meds == [] then []
    else [if meds[0].id == id then SetField(meds[0], f, v) else meds[0]] + UpdateWhere(meds[1..], id, f, v)
  }

  /** Filtering distributes over concatenation, so the kept rows stay in their order. */
  lemma {:induction false} WithoutIdAppend(a: seq<Medicine>, b: seq<Medicine>, id: int)
    ensures WithoutId(a + b, id) == WithoutId(a, id) + WithoutId(b, id)
    decreases |a|
  {
    if a == [] {
      assert a + b == b;
    } else {
      assert (a + b)[1..] == a[1..] + b;
      WithoutIdAppend(a[1..], b, id);
    }
  }

  /** Removing an id that no row carries changes nothing. */
  lemma {:induction false} WithoutAbsentId(meds: seq<Medicine>, id: int)
    requires forall i :: 0 <= i < |meds| ==> meds[i].id != id
    ensures WithoutId(meds, id) == meds
    decreases |meds|
  {
    if meds != [] {
      WithoutAbsentId(meds[1..], id);
    }
  }

  /** With distinct ids, removing one id takes away at most one row. */
  lemma {:induction false} WithoutDistinctId(meds: seq<Medicine>, id: int)
    requires forall i, j :: 0 <= i < j < |meds| ==> meds[i].id != meds[j].id
    ensures |WithoutId(meds, id)| >= |meds| - 1
    decreases |meds|
  {
    if meds != [] {
      if meds[0].id == id {
        WithoutAbsentId(meds[1..], id);
      } else {
        WithoutDistinctId(meds[1..], id);
      }
    }
  }

  /** Two rows sharing the removed id both go, so the keep-one guard can still empty the form. */
  lemma DuplicateIdsEmptyTheForm()
    ensures WithoutId([Blank(5), Blank(5)], 5) == []
  {
    assert [Blank(5), Blank(5)][1..] == [Blank(5)];
  }

  /** Updating leaves the ids, hence the identity and order of every row, unchanged. */
  lemma UpdateKeepsIds(meds: seq<Medicine>, id: int, f: Field, v: string)
    ensures forall i :: 0 <= i < |meds| ==> UpdateWhere(meds, id, f, v)[i].id == meds[i].id
  {
  }

  /** Writing the same value twice is the same as writing it once. */
  lemma UpdateIdempotent(meds: seq<Medicine>, id: int, f: Field, v: string)
    ensures UpdateWhere(UpdateWhere(meds, id, f, v), id, f, v) == UpdateWhere(meds, id, f, v)
  {
    var once := UpdateWhere(meds, id, f, v);
    var twice := UpdateWhere(once, id, f, v);
    forall i | 0 <= i < |meds| ensures twice[i] == once[i] {
      if meds[i].id == id {
        var m := meds[i];
        var a := SetField(m, f, v);
        assert SetField(a, f, v) == a by {
          match f
          case Name =>
          case Dosage =>
          case Time =>
          case DurationText =>
        }
      }
    }
  }

  // ---------------------------------------------------------------------
  // Auto-fill from extracted prescription data
  // ---------------------------------------------------------------------

  /** One medication as the extraction service reports it; "" stands for a missing or falsy field. */
  datatype ExtractedItem = ExtractedItem(medicine: string, name: string, dosage: string, dose: string, duration: string)

  /** What a property of the extracted object holds: an array, a single non-array object, or anything else. */
  datatype Slot = Absent | Items(items: seq<ExtractedItem>) | Single(item: ExtractedItem)

  datatype Extracted = Extracted(prescription: Slot, medications: Slot)

  /** The `prescription` array, else the `medications` array, else a lone `medications` object wrapped in a list. */
  function RawItems(e: Extracted): (r: seq<ExtractedItem>)
    ensures e.prescription.Items? ==> r == e.prescription.items
    ensures !e.prescription.Items? && e.medications.Items? ==> r == e.medications.items
    ensures !e.prescription.Items? && e.medications.Single? ==> r == [e.medications.item]
    ensures !e.prescription.Items? && e.medications.Absent? ==> r == []
  {
    if e.prescription.Items? then e.prescription.items
    else if e.medications.Items? then e.medications.items
    else if e.medications.Single? then [e.medications.item]
    else []
  }

  /** JavaScript's `a || b` on strings. */
  function OrElse(a: string, b: string): string {
    if a != "" then a else b
  }

  /** The form row made from the extracted item at position `idx`. */
  function FromExtracted(p: ExtractedItem, id: int): (m: Medicine)
    ensures m.id == id && m.time == "" && m.duration == p.duration
    ensures m.name == (if p.medicine != "" then p.medicine else p.name)
    ensures m.dosage == (if p.dosage != "" then p.dosage else p.dose)
  {
    Medicine(id, OrElse(p.medicine, p.name), OrElse(p.dosage, p.dose), "", p.duration)
  }

  /**
   * `raw.map((p, idx) => ...)` with ids `Date.now() + idx`, where the clock
   * is read again for every item: `clock(idx)` is the reading taken for item
   * `idx`.
   */
  function Normalize(raw: seq<ExtractedItem>, clock: nat -> int): (r: seq<Medicine>)
    ensures |r| == |raw|
    ensures forall i :: 0 <= i < |raw| ==> r[i] == FromExtracted(raw[i], clock(i) + i)
    decreases |raw|
  {
    if raw == [] then []
    else Normalize(raw[..|raw| - 1], clock) + [FromExtracted(raw[|raw| - 1], clock(|raw| - 1) + (|raw| - 1))]
  }

  /** The clock never runs backwards while the items are mapped. */
  ghost predicate NonDecreasing(clock: nat -> int) {
    forall i: nat, j: nat :: i <= j ==> clock(i) <= clock(j)
  }

  /**
   * With a clock that never runs backwards the filled rows get strictly
   * increasing ids, so no two of them share an id, however fast the clock.
   */
  lemma NormalizedIdsIncrease(raw: seq<ExtractedItem>, clock: nat -> int)
    requires NonDecreasing(clock)
    ensures forall i, j :: 0 <= i < j < |raw| ==> Normalize(raw, clock)[i].id < Normalize(raw, clock)[j].id
  {
  }

  /** The form still holds only the single untouched row it starts with (the id is not looked at). */
  predicate FormIsEmpty(meds: seq<Medicine>) {
    |meds| == 1 && IsBlank(meds[0])
  }

  /** The rows after the auto-fill effect has seen `extracted`. */
  function AutoFilled(meds: seq<Medicine>, extracted: Option<Extracted>, clock: nat -> int): (r: seq<Medicine>)
  {
    if extracted.None? || !FormIsEmpty(meds) then meds
    else
      var raw := RawItems(extracted.value);
      if |raw| == 0 then meds else Normalize(raw, clock)
  }

  /**
   * The auto-fill replaces the rows exactly when the form is a single blank
   * row and the extracted data yields at least one item; otherwise the
   * user's rows are kept. A replaced form has one row per item, in order,
   * each with an empty time.
   */
  lemma AutoFillRule(meds: seq<Medicine>, extracted: Option<Extracted>, clock: nat -> int)
    ensures AutoFilled(meds, extracted, clock) != meds ==>
              FormIsEmpty(meds) && extracted.Some? && |RawItems(extracted.value)| > 0
    ensures extracted.Some? && FormIsEmpty(meds) && |RawItems(extracted.value)| > 0 ==>
              var r := AutoFilled(meds, extracted, clock);
              var raw := RawItems(extracted.value);
              r == Normalize(raw, clock) && |r| == |raw| &&
              forall i :: 0 <= i < |raw| ==>
                r[i].id == clock(i) + i && r[i].time == "" && r[i].duration == raw[i].duration &&
                r[i].name == OrElse(raw[i].medicine, raw[i].name) &&
                r[i].dosage == OrElse(raw[i].dosage, raw[i].dose)
  {
  }

  /** A form the user has started editing is never overwritten. */
  lemma AutoFillKeepsEdits(meds: seq<Medicine>, extracted: Option<Extracted>, clock: nat -> int)
    requires |meds| != 1 || !IsBlank(meds[0])
    ensures AutoFilled(meds, extracted, clock) == meds
  {
  }

  // ---------------------------------------------------------------------
  // Submit: validation gate and payload
  // ---------------------------------------------------------------------

  /** One entry of the `schedules` array. The dosage is not sent. */
  datatype ScheduleEntry = ScheduleEntry(medicine: string, time: string, duration: nat)

  datatype Payload = Payload(chatId: string, schedules: seq<ScheduleEntry>)

  datatype FormError = MissingChatId | IncompleteMedicine

  /** The entry sent for one row. */
  function EntryFor(m: Medicine): (e: ScheduleEntry)
    ensures e.medicine == m.name && e.time == m.time && e.duration == ParseDurationDays(m.duration)
  {
    ScheduleEntry(m.name, m.time, ParseDurationDays(m.duration))
  }

  /** `medicines.map((med) => ({ medicine: med.name, time: med.time, duration: parseDurationDays(med.duration) }))` */
  function Schedules(meds: seq<Medicine>): (r: seq<ScheduleEntry>)
    ensures |r| == |meds|
    ensures forall i :: 0 <= i < |meds| ==> r[i] == EntryFor(meds[i])
  {
    if meds == [] then []
    else [EntryFor(meds[0])] + Schedules(meds[1..])
  }

  /** The payload built from two form lists depends only on names, times and duration texts. */
  lemma SchedulesIgnoreIdAndDosage(a: seq<Medicine>, b: seq<Medicine>)
    requires |a| == |b|
    requires forall i :: 0 <= i < |a| ==>
               a[i].name == b[i].name && a[i].time == b[i].time && a[i].duration == b[i].duration
    ensures Schedules(a) == Schedules(b)
  {
  }

  /**
   * The submit gate: nothing is sent when the chat id is empty or some row
   * lacks a name, dosage, time or duration; otherwise the payload carries
   * the chat id and one entry per row.
   */
  function BuildPayload(chatId: string, meds: seq<Medicine>): (r: Result<Payload, FormError>)
    ensures r == Err(MissingChatId) <==> chatId == ""
    ensures r == Err(IncompleteMedicine) <==>
              chatId != "" && exists i :: 0 <= i < |meds| && !IsComplete(meds[i])
    ensures r.Ok? ==> r.value == Payload(chatId, Schedules(meds))
    ensures r.Ok? ==> r.value.chatId == chatId && |r.value.schedules| == |meds|
    ensures r.Ok? ==> forall i :: 0 <= i < |meds| ==>
              r.value.schedules[i].medicine != "" && r.value.schedules[i].time != ""
  {
    if chatId == "" then Err(MissingChatId)
    else if exists i :: 0 <= i < |meds| && !IsComplete(meds[i]) then Err(IncompleteMedicine)
    else Ok(Payload(chatId, Schedules(meds)))
  }

  /**
   * The gate does not reject a zero-day duration: a complete row whose
   * duration reads "0 days" is sent with duration 0.
   */
  lemma ZeroDurationPassesGate()
    ensures var meds := [Medicine(1, "Amoxicillin", "500mg", "08:00", "0 days")];
            var r := BuildPayload("123", meds);
            r.Ok? && r.value.schedules == [ScheduleEntry("Amoxicillin", "08:00", 0)]
  {
    ExampleZeroDays();
    SingleCompleteRow("123", Medicine(1, "Amoxicillin", "500mg", "08:00", "0 days"));
  }

  lemma SingleCompleteRow(chatId: string, m: Medicine)
    requires chatId != "" && IsComplete(m)
    ensures BuildPayload(chatId, [m]) ==
              Ok(Payload(chatId, [ScheduleEntry(m.name, m.time, ParseDurationDays(m.duration))]))
  {
    assert Schedules([m]) == [ScheduleEntry(m.name, m.time, ParseDurationDays(m.duration))];
  }

  /** What pressing "create" leads to. */
  datatype SubmitOutcome = Rejected(error: FormError) | Posted(payload: Payload, accepted: bool)

  // ---------------------------------------------------------------------
  // The form state
  // ---------------------------------------------------------------------

  class Scheduler {
    var chatId: string
    var medicines: seq<Medicine>

    /** The initial state: no chat id and one blank row with id 1. */
    constructor ()
      ensures chatId == "" && medicines == [Blank(1)]
    {
      chatId := "";
      medicines := [Blank(1)];
    }

    /** The chat id input. */
    method SetChatId(v: string)
      modifies this
      ensures chatId == v && medicines == old(medicines)
    {
      chatId := v;
    }

    /** `addMedicine`: one blank row is appended, with id `now`. */
    method AddMedicine(now: int)
      modifies this
      ensures medicines == old(medicines) + [Blank(now)]
      ensures chatId == old(chatId)
    {
      medicines := medicines + [Blank(now)];
    }

    /** `removeMedicine`: the last remaining row is never removed. */
    method RemoveMedicine(id: int)
      modifies this
      ensures |old(medicines)| <= 1 ==> medicines == old(medicines)
      ensures |old(medicines)| > 1 ==> medicines == WithoutId(old(medicines), id)
      ensures chatId == old(chatId)
    {
      if |medicines| > 1 {
        medicines := WithoutId(medicines, id);
      }
    }

    /** `updateMedicine`: one field of every row with this id is replaced. */
    method UpdateMedicine(id: int, f: Field, v: string)
      modifies this
      ensures medicines == UpdateWhere(old(medicines), id, f, v)
      ensures chatId == old(chatId)
    {
      medicines := UpdateWhere(medicines, id, f, v);
    }

    /** The auto-fill effect, run when `extracted` changes. */
    method ApplyExtracted(extracted: Option<Extracted>, clock: nat -> int)
      modifies this
      ensures medicines == AutoFilled(old(medicines), extracted, clock)
      ensures chatId == old(chatId)
    {
      if extracted.None? {
        return;
      }
      if !FormIsEmpty(medicines) {
        return;
      }
      var raw := RawItems(extracted.value);
      if |raw| == 0 {
        return;
      }
      medicines := Normalize(raw, clock);
    }

    /**
     * `handleCreateSchedule`: validation, then the post; `accepted` is
     * whether the server answered with `success`. Only an accepted post
     * resets the form, to an empty chat id and one blank row with id `now`.
     */
    method CreateSchedule(accepted: bool, now: int) returns (outcome: SubmitOutcome)
      modifies this
      ensures BuildPayload(old(chatId), old(medicines)).Err? ==>
                outcome == Rejected(BuildPayload(old(chatId), old(medicines)).error) &&
                chatId == old(chatId) && medicines == old(medicines)
      ensures BuildPayload(old(chatId), old(medicines)).Ok? ==>
                outcome == Posted(BuildPayload(old(chatId), old(medicines)).value, accepted)
      ensures outcome.Posted? && accepted ==> chatId == "" && medicines == [Blank(now)]
      ensures outcome.Posted? && !accepted ==> chatId == old(chatId) && medicines == old(medicines)
    {
      var r := BuildPayload(chatId, medicines);
      if r.Err? {
        return Rejected(r.error);
      }
      outcome := Posted(r.value, accepted);
      if accepted {
        chatId := "";
        medicines := [Blank(now)];
      }
    }
  }
}
