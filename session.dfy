/** The page's live state (`state` in app.js): the logged data, the two hour/minute
    counters being composed before a save, and the storage slot the data is saved to. */
module Session {
  import opened Wrappers
  import opened Registry
  import opened Dates
  import opened Store
  import opened Aggregates

  /** Which counter pair a button acts on: "g" is the general one, any other value the
      LDC one. */
  datatype Bucket = General | Ldc {
    function Other(): Bucket {
      if this == General then Ldc else General
    }
  }

  /** The minute values a save accepts. */
  predicate IsQuarter(m: int) { m == 0 || m == 15 || m == 30 || m == 45 }

  /** `Number(hmToHours(h, m).toFixed(2))` in hundredths of an hour. For a quarter-hour
      minute value the rounding is exact: `r` hundredths of an hour are exactly
      `60 * h + m` minutes. */
  function CentiHours(h: int, m: int): (r: int)
    requires IsQuarter(m)
    ensures 3 * r == 5 * (60 * h + m)
    ensures r > 0 <==> 60 * h + m > 0
  {
    h * 100 + m * 5 / 3
  }

  /** Why a save throws. */
  datatype SaveError = BadDate(reason: DateError) | MinutesNotQuarter

  /** How a save that does not throw ends: an entry was appended, or the composed time
      was not positive and nothing happened. */
  datatype SaveOutcome = Appended | NothingToSave

  class AppState {
    var data: Dataset
    var gH: int
    var gM: int
    var lH: int
    var lM: int
    /** The text stored under the storage key, as `JSON.parse` reads it; `None` when
        nothing is stored. */
    var slot: Option<Text>

    /** What the buttons maintain: hours are never negative, minutes are a quarter
        below 60, and a service type is selected. */
    ghost predicate Valid()
      reads this
    {
      gH >= 0 && IsQuarter(gM) && lH >= 0 && IsQuarter(lM) && data.selectedService != ""
    }

    function Hours(which: Bucket): int
      reads this
    {
      if which == General then gH else lH
    }

    function Minutes(which: Bucket): int
      reads this
    {
      if which == General then gM else lM
    }

    /** The time composed in a bucket, in minutes. */
    function Composed(which: Bucket): int
      reads this
    {
      Hours(which) * 60 + Minutes(which)
    }

    /** Page start: the data is loaded from the slot and both counters are zero. */
    constructor (stored: Option<Text>)
      ensures data == Load(stored) && slot == stored
      ensures gH == 0 && gM == 0 && lH == 0 && lM == 0
      ensures Valid()
    {
      data := Load(stored);
      slot := stored;
      gH, gM, lH, lM := 0, 0, 0, 0;
    }

    /** The "+1h" buttons: one more hour in the bucket, nothing else changes. */
    method AddHour(which: Bucket)
      modifies this
      ensures Hours(which) == old(Hours(which)) + 1 && Minutes(which) == old(Minutes(which))
      ensures Hours(which.Other()) == old(Hours(which.Other()))
      ensures Minutes(which.Other()) == old(Minutes(which.Other()))
      ensures data == old(data) && slot == old(slot)
      ensures old(Valid()) ==> Valid()
    {
      if which == General {
        gH := gH + 1;
      } else {
        lH := lH + 1;
      }
    }

    /** `add15`: fifteen more minutes in the bucket, a full hour of minutes carried into
        the hours; minutes that were a quarter below 60 stay so. */
    method Add15(which: Bucket)
      modifies this
      ensures Composed(which) == old(Composed(which)) + 15
      ensures 0 <= old(Minutes(which)) < 60 ==> 0 <= Minutes(which) < 60
      ensures IsQuarter(old(Minutes(which))) ==> IsQuarter(Minutes(which))
      ensures Hours(which) >= old(Hours(which))
      ensures Hours(which.Other()) == old(Hours(which.Other()))
      ensures Minutes(which.Other()) == old(Minutes(which.Other()))
      ensures data == old(data) && slot == old(slot)
      ensures old(Valid()) ==> Valid()
    {
      if which == General {
        var m := gM + 15;
        var h := gH;
        if m >= 60 {
          h := h + m / 60;
          m := m % 60;
        }
        gH, gM := h, m;
      } else {
        var m := lM + 15;
        var h := lH;
        if m >= 60 {
          h := h + m / 60;
          m := m % 60;
        }
        lH, lM := h, m;
      }
    }

    /** `reset`: the bucket's counters go back to zero, nothing else changes. */
    method Reset(which: Bucket)
      modifies this
      ensures Hours(which) == 0 && Minutes(which) == 0
      ensures Hours(which.Other()) == old(Hours(which.Other()))
      ensures Minutes(which.Other()) == old(Minutes(which.Other()))
      ensures data == old(data) && slot == old(slot)
      ensures old(Valid()) ==> Valid()
    {
      if which == General {
        gH, gM := 0, 0;
      } else {
        lH, lM := 0, 0;
      }
    }

    /** `saveData`: the whole data set is written to the slot. */
    method SaveData()
      modifies this`slot
      ensures slot == Some(Serialise(data))
      ensures Load(slot) == data || data.selectedService == ""
    {
      slot := Some(Serialise(data));
      if data.selectedService != "" {
        LoadSerialised(data);
      }
    }

    /** A click on a service tile selects its service type; it is not saved. */
    method SelectService(service: string)
      requires service in ServiceTypes
      modifies this`data
      ensures data == old(data).(selectedService := service)
      ensures old(Valid()) ==> Valid()
    {
      data := data.(selectedService := service);
    }

    /** `saveGeneral`: the month key and the minutes are checked before anything
        changes; a composed time that is not positive is ignored; otherwise one entry
        with the key, the selected service type and the composed hours is appended, the
        general counters are reset and the data is saved. */
    method SaveGeneral(year: Option<int>, month: Option<int>) returns (r: Result<SaveOutcome, SaveError>)
      modifies this
      ensures EntryDate(year, month).Err? ==> r == Err(BadDate(EntryDate(year, month).error))
      ensures EntryDate(year, month).Ok? && !IsQuarter(old(gM)) ==> r == Err(MinutesNotQuarter)
      ensures EntryDate(year, month).Ok? && IsQuarter(old(gM)) && old(Composed(General)) <= 0 ==>
                r == Ok(NothingToSave)
      ensures r == Ok(Appended) <==>
                EntryDate(year, month).Ok? && IsQuarter(old(gM)) && old(Composed(General)) > 0
      ensures r != Ok(Appended) ==> unchanged(this)
      ensures r == Ok(Appended) ==>
                data == old(data).(entries := old(data.entries) +
                  [Entry(EntryDate(year, month).value, old(data.selectedService), CentiHours(old(gH), old(gM)))]) &&
                gH == 0 && gM == 0 && lH == old(lH) && lM == old(lM) &&
                slot == Some(Serialise(data))
      ensures old(Valid()) ==> Valid()
    {
      var date := EntryDate(year, month);
      if date.Err? {
        return Err(BadDate(date.error));
      }
      var m := gM;
      if !IsQuarter(m) {
        return Err(MinutesNotQuarter);
      }
      var hours := CentiHours(gH, gM);
      if hours <= 0 {
        return Ok(NothingToSave);
      }
      data := data.(entries := data.entries + [Entry(date.value, data.selectedService, hours)]);
      Reset(General);
      SaveData();
      return Ok(Appended);
    }

    /** `saveLdc`: as `SaveGeneral`, for the LDC counters and the LDC entries. */
    method SaveLdc(year: Option<int>, month: Option<int>) returns (r: Result<SaveOutcome, SaveError>)
      modifies this
      ensures EntryDate(year, month).Err? ==> r == Err(BadDate(EntryDate(year, month).error))
      ensures EntryDate(year, month).Ok? && !IsQuarter(old(lM)) ==> r == Err(MinutesNotQuarter)
      ensures EntryDate(year, month).Ok? && IsQuarter(old(lM)) && old(Composed(Ldc)) <= 0 ==>
                r == Ok(NothingToSave)
      ensures r == Ok(Appended) <==>
                EntryDate(year, month).Ok? && IsQuarter(old(lM)) && old(Composed(Ldc)) > 0
      ensures r != Ok(Appended) ==> unchanged(this)
      ensures r == Ok(Appended) ==>
                data == old(data).(ldcEntries := old(data.ldcEntries) +
                  [LdcEntry(EntryDate(year, month).value, CentiHours(old(lH), old(lM)))]) &&
                lH == 0 && lM == 0 && gH == old(gH) && gM == old(gM) &&
                slot == Some(Serialise(data))
      ensures old(Valid()) ==> Valid()
    {
      var date := EntryDate(year, month);
      if date.Err? {
        return Err(BadDate(date.error));
      }
      var m := lM;
      if !IsQuarter(m) {
        return Err(MinutesNotQuarter);
      }
      var hours := CentiHours(lH, lM);
      if hours <= 0 {
        return Ok(NothingToSave);
      }
      data := data.(ldcEntries := data.ldcEntries + [LdcEntry(date.value, hours)]);
      Reset(Ldc);
      SaveData();
      return Ok(Appended);
    }

    /** `importJsonFile` once the file is read: a text that is not JSON, or is `null`,
        is refused and nothing changes; otherwise the normalised document replaces the
        data and is saved. The counters are not touched. */
    method ImportJsonFile(text: Text) returns (r: Result<(), ImportError>)
      modifies this
      ensures Import(text).Err? ==> r == Err(Import(text).error) && unchanged(this)
      ensures Import(text).Ok? ==>
                r == Ok(()) && data == Import(text).value && slot == Some(Serialise(data)) &&
                gH == old(gH) && gM == old(gM) && lH == old(lH) && lM == old(lM)
      ensures old(Valid()) ==> Valid()
    {
      var imported := Import(text);
      if imported.Err? {
        return Err(imported.error);
      }
      data := imported.value;
      SaveData();
      return Ok(());
    }
  }

  /** Saving 1 h 15 min of "Trolley" for September 2024 appends an entry of 1.25 hours,
      which both the all-time table and the 2024/2025 service-year table count. */
  lemma TrolleyScenario()
    ensures var e := Entry(DateKey(2024, 9), "Trolley", CentiHours(1, 15));
            e.hours == 125 &&
            ServiceSum([e], "Trolley") == 125 &&
            ServiceSum(InServiceYear([e], 2024), "Trolley") == 125
  {
    var e := Entry(DateKey(2024, 9), "Trolley", CentiHours(1, 15));
    SavedEntryInItsServiceYear([], YearMonth(2024, 9), "Trolley", 125);
    assert [] + [e] == [e];
    ServiceSumAppend([], e, "Trolley");
  }
}
