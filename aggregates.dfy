/** The summaries shown in the overview: hours per service type, general and LDC totals,
    all-time and for one service year. Hours are hundredths of an hour throughout. */
module Aggregates {
  import opened Registry
  import opened Dates
  import opened Store

  /** Sum of the hours of all general entries, folded from the left (`totalHoursAllTime`). */
  function TotalHours(es: seq<Entry>): int {
    if es == [] then 0 else TotalHours(es[..|es| - 1]) + es[|es| - 1].hours
  }

  /** Sum of the hours of all LDC entries, folded from the left (`ldcTotalAllTime`). */
  function LdcTotal(ls: seq<LdcEntry>): int {
    if ls == [] then 0 else LdcTotal(ls[..|ls| - 1]) + ls[|ls| - 1].hours
  }

  /** Sum of the hours of the entries logged under service type `s`. */
  function ServiceSum(es: seq<Entry>, s: string): int {
    if es == [] then 0
    else
      var last := es[|es| - 1];
      ServiceSum(es[..|es| - 1], s) + (if last.serviceType == s then last.hours else 0)
  }

  /** Sum of the hours of the entries whose service type is a known one. */
  function KnownTotal(es: seq<Entry>): int {
    if es == [] then 0
    else
      var last := es[|es| - 1];
      KnownTotal(es[..|es| - 1]) + (if last.serviceType in ServiceTypes then last.hours else 0)
  }

  /** The general entries that lie in the service year starting in `startYear`, in order. */
  function InServiceYear(es: seq<Entry>, startYear: int): (r: seq<Entry>)
  {
    if es == [] then []
    else
      var last := es[|es| - 1];
      InServiceYear(es[..|es| - 1], startYear) + (if IsInServiceYear(last.date, startYear) then [last] else [])
  }

  /** The LDC entries that lie in the service year starting in `startYear`, in order. */
  function LdcInServiceYear(ls: seq<LdcEntry>, startYear: int): (r: seq<LdcEntry>)
  {
    if ls == [] then []
    else
      var last := ls[|ls| - 1];
      LdcInServiceYear(ls[..|ls| - 1], startYear) + (if IsInServiceYear(last.date, startYear) then [last] else [])
  }

  /** The service-year selection holds exactly the entries of the list that lie in the
      service year. */
  lemma {:induction false} InServiceYearMembers(es: seq<Entry>, startYear: int)
    ensures forall e :: e in InServiceYear(es, startYear) <==> e in es && IsInServiceYear(e.date, startYear)
  {
    if es != [] {
      var front, last := es[..|es| - 1], es[|es| - 1];
      InServiceYearMembers(front, startYear);
      assert es == front + [last];
    }
  }

  /** The LDC service-year selection holds exactly the LDC entries that lie in the
      service year. */
  lemma {:induction false} LdcInServiceYearMembers(ls: seq<LdcEntry>, startYear: int)
    ensures forall l :: l in LdcInServiceYear(ls, startYear) <==> l in ls && IsInServiceYear(l.date, startYear)
  {
    if ls != [] {
      var front, last := ls[..|ls| - 1], ls[|ls| - 1];
      LdcInServiceYearMembers(front, startYear);
      assert ls == front + [last];
    }
  }

  /** The sum, over the service types `keys`, of the hours logged under each. */
  function SumAcross(keys: seq<string>, es: seq<Entry>): int {
    if keys == [] then 0 else ServiceSum(es, keys[0]) + SumAcross(keys[1..], es)
  }

  /** `Object.values(m).reduce((a, b) => a + b, 0)` for a map whose keys, in insertion
      order, are `keys`. */
  function SumValues(keys: seq<string>, m: map<string, int>): int
    requires forall k :: k in keys ==> k in m
  {
    if keys == [] then 0 else m[keys[0]] + SumValues(keys[1..], m)
  }

  /** `hoursByServiceAllTime`: every service type starts at 0, and each entry whose
      service type is known adds its hours to that type; other entries are skipped. */
  method HoursByServiceAllTime(es: seq<Entry>) returns (res: map<string, int>)
    ensures res.Keys == set s | s in ServiceTypes
    ensures forall s :: s in res ==> res[s] == ServiceSum(es, s)
  {
    res := map s | s in ServiceTypes :: 0;
    for i := 0 to |es|
      invariant res.Keys == set s | s in ServiceTypes
      invariant forall s :: s in res ==> res[s] == ServiceSum(es[..i], s)
    {
      var e := es[i];
      if e.serviceType in res {
        res := res[e.serviceType := res[e.serviceType] + e.hours];
      }
      assert es[..i + 1][..i] == es[..i];
    }
    assert es[..|es|] == es;
  }

  /** `serviceYearSummary`: as `HoursByServiceAllTime`, counting only the entries with a
      non-empty date in the service year starting in `startYear`. */
  method ServiceYearSummary(es: seq<Entry>, startYear: int) returns (res: map<string, int>)
    ensures res.Keys == set s | s in ServiceTypes
    ensures forall s :: s in res ==> res[s] == ServiceSum(InServiceYear(es, startYear), s)
  {
    res := map s | s in ServiceTypes :: 0;
    for i := 0 to |es|
      invariant res.Keys == set s | s in ServiceTypes
      invariant forall s :: s in res ==> res[s] == ServiceSum(InServiceYear(es[..i], startYear), s)
    {
      var e := es[i];
      InServiceYearStep(es, i, startYear);
      if e.date == "" {
        EmptyDateInNoServiceYear(startYear);
        continue;
      }
      if !IsInServiceYear(e.date, startYear) {
        continue;
      }
      forall s | s in res
        ensures ServiceSum(InServiceYear(es[..i + 1], startYear), s)
                == ServiceSum(InServiceYear(es[..i], startYear), s) + (if e.serviceType == s then e.hours else 0)
      {
        ServiceSumAppend(InServiceYear(es[..i], startYear), e, s);
      }
      if e.serviceType in res {
        res := res[e.serviceType := res[e.serviceType] + e.hours];
      }
    }
    assert es[..|es|] == es;
  }

  /** `serviceYearLdcTotal`: the hours of the LDC entries with a non-empty date in the
      service year starting in `startYear`. */
  method ServiceYearLdcTotal(ls: seq<LdcEntry>, startYear: int) returns (t: int)
    ensures t == LdcTotal(LdcInServiceYear(ls, startYear))
  {
    t := 0;
    for i := 0 to |ls|
      invariant t == LdcTotal(LdcInServiceYear(ls[..i], startYear))
    {
      var l := ls[i];
      LdcInServiceYearStep(ls, i, startYear);
      if l.date == "" {
        EmptyDateInNoServiceYear(startYear);
        continue;
      }
      if !IsInServiceYear(l.date, startYear) {
        continue;
      }
      LdcTotalAppend(LdcInServiceYear(ls[..i], startYear), l);
      t := t + l.hours;
    }
    assert ls[..|ls|] == ls;
  }

  /** One more entry of the list extends the service-year selection by that entry exactly
      when it lies in the service year. */
  lemma InServiceYearStep(es: seq<Entry>, i: nat, startYear: int)
    requires i < |es|
    ensures IsInServiceYear(es[i].date, startYear) ==>
              InServiceYear(es[..i + 1], startYear) == InServiceYear(es[..i], startYear) + [es[i]]
    ensures !IsInServiceYear(es[i].date, startYear) ==>
              InServiceYear(es[..i + 1], startYear) == InServiceYear(es[..i], startYear)
  {
    assert es[..i + 1][..i] == es[..i];
    assert InServiceYear(es[..i], startYear) + [] == InServiceYear(es[..i], startYear);
  }

  lemma LdcInServiceYearStep(ls: seq<LdcEntry>, i: nat, startYear: int)
    requires i < |ls|
    ensures IsInServiceYear(ls[i].date, startYear) ==>
              LdcInServiceYear(ls[..i + 1], startYear) == LdcInServiceYear(ls[..i], startYear) + [ls[i]]
    ensures !IsInServiceYear(ls[i].date, startYear) ==>
              LdcInServiceYear(ls[..i + 1], startYear) == LdcInServiceYear(ls[..i], startYear)
  {
    assert ls[..i + 1][..i] == ls[..i];
    assert LdcInServiceYear(ls[..i], startYear) + [] == LdcInServiceYear(ls[..i], startYear);
  }

  /** Adding one entry adds its hours to the sum of every list of distinct service types
      that contains its type, and nothing otherwise. */
  lemma {:induction false} SumAcrossAppend(keys: seq<string>, es: seq<Entry>, e: Entry)
    requires Distinct(keys)
    ensures SumAcross(keys, es + [e]) == SumAcross(keys, es) + (if e.serviceType in keys then e.hours else 0)
  {
    assert (es + [e])[..|es|] == es;
    if keys != [] {
      assert Distinct(keys[1..]) by {
        forall i, j | 0 <= i < j < |keys[1..]| ensures keys[1..][i] != keys[1..][j] {
          assert keys[1..][i] == keys[i + 1] && keys[1..][j] == keys[j + 1];
        }
      }
      SumAcrossAppend(keys[1..], es, e);
      assert keys[0] !in keys[1..] by {
        forall j | 0 <= j < |keys[1..]| ensures keys[1..][j] != keys[0] {
          assert keys[1..][j] == keys[j + 1];
        }
      }
      assert e.serviceType in keys <==> e.serviceType == keys[0] || e.serviceType in keys[1..] by {
        assert keys == [keys[0]] + keys[1..];
      }
    }
  }

  /** The per-service sums add up to the hours of the entries with a known service type. */
  lemma {:induction false} SumAcrossServiceTypes(es: seq<Entry>)
    ensures SumAcross(ServiceTypes, es) == KnownTotal(es)
  {
    if es == [] {
      SumAcrossEmpty(ServiceTypes);
    } else {
      var front, last := es[..|es| - 1], es[|es| - 1];
      assert es == front + [last];
      ServiceTypesDistinct();
      SumAcrossAppend(ServiceTypes, front, last);
      SumAcrossServiceTypes(front);
    }
  }

  lemma {:induction false} SumAcrossEmpty(keys: seq<string>)
    ensures SumAcross(keys, []) == 0
  {
    if keys != [] {
      SumAcrossEmpty(keys[1..]);
    }
  }

  /** Summing a map that holds the per-service sums gives the sum across services. */
  lemma {:induction false} SumValuesOfSums(keys: seq<string>, m: map<string, int>, es: seq<Entry>)
    requires forall k :: k in keys ==> k in m && m[k] == ServiceSum(es, k)
    ensures SumValues(keys, m) == SumAcross(keys, es)
  {
    if keys != [] {
      SumValuesOfSums(keys[1..], m, es);
    }
  }

  /** When every entry has a known service type, the per-service table accounts for the
      whole general total. */
  lemma {:induction false} KnownTotalOfKnownEntries(es: seq<Entry>)
    requires forall e :: e in es ==> e.serviceType in ServiceTypes
    ensures KnownTotal(es) == TotalHours(es)
  {
    if es != [] {
      var front := es[..|es| - 1];
      assert forall e :: e in front ==> e in es;
      KnownTotalOfKnownEntries(front);
    }
  }

  /** The entries of a service year plus the rest give the whole general total. */
  lemma {:induction false} ServiceYearSplitsTotal(es: seq<Entry>, startYear: int)
    ensures TotalHours(InServiceYear(es, startYear)) + TotalHours(OutsideServiceYear(es, startYear)) == TotalHours(es)
  {
    if es != [] {
      var front, last := es[..|es| - 1], es[|es| - 1];
      var inside, outside := InServiceYear(front, startYear), OutsideServiceYear(front, startYear);
      ServiceYearSplitsTotal(front, startYear);
      if IsInServiceYear(last.date, startYear) {
        assert OutsideServiceYear(es, startYear) == outside + [] == outside;
        TotalHoursAppend(inside, last);
      } else {
        assert InServiceYear(es, startYear) == inside + [] == inside;
        TotalHoursAppend(outside, last);
      }
    }
  }

  /** The general entries outside the service year starting in `startYear`. */
  function OutsideServiceYear(es: seq<Entry>, startYear: int): seq<Entry> {
    if es == [] then []
    else
      var last := es[|es| - 1];
      OutsideServiceYear(es[..|es| - 1], startYear) + (if IsInServiceYear(last.date, startYear) then [] else [last])
  }

  /** Appending an entry adds its hours to the total. */
  lemma TotalHoursAppend(es: seq<Entry>, e: Entry)
    ensures TotalHours(es + [e]) == TotalHours(es) + e.hours
  {
    assert (es + [e])[..|es|] == es;
  }

  /** Appending an entry adds its hours to the sum of its own service type only. */
  lemma ServiceSumAppend(es: seq<Entry>, e: Entry, s: string)
    ensures ServiceSum(es + [e], s) == ServiceSum(es, s) + (if e.serviceType == s then e.hours else 0)
  {
    assert (es + [e])[..|es|] == es;
  }

  /** Appending an LDC entry adds its hours to the LDC total. */
  lemma LdcTotalAppend(ls: seq<LdcEntry>, l: LdcEntry)
    ensures LdcTotal(ls + [l]) == LdcTotal(ls) + l.hours
  {
    assert (ls + [l])[..|ls|] == ls;
  }

  /** Appending an entry adds its hours to the known total exactly when its service
      type is known. */
  lemma KnownTotalAppend(es: seq<Entry>, e: Entry)
    ensures KnownTotal(es + [e]) == KnownTotal(es) + (if e.serviceType in ServiceTypes then e.hours else 0)
  {
    assert (es + [e])[..|es|] == es;
  }

  /** An entry saved for a month (with a year from 1 on) is counted in the service year
      that the overview shows for that same month: it joins that year's selection and
      adds its hours to the year's general figure when its service type is known. */
  lemma SavedEntryInItsServiceYear(es: seq<Entry>, ym: YearMonth, service: string, hours: int)
    requires ym.year >= 1 && ValidMonth(ym.month)
    ensures var e := Entry(DateKey(ym.year, ym.month), service, hours);
            InServiceYear(es + [e], StartYear(ym)) == InServiceYear(es, StartYear(ym)) + [e] &&
            KnownTotal(InServiceYear(es + [e], StartYear(ym))) ==
              KnownTotal(InServiceYear(es, StartYear(ym))) + (if service in ServiceTypes then hours else 0)
  {
    var e := Entry(DateKey(ym.year, ym.month), service, hours);
    StartYearContainsMonth(ym);
    AppendInServiceYear(es, e, StartYear(ym));
    KnownTotalAppend(InServiceYear(es, StartYear(ym)), e);
  }

  /** `InServiceYearStep` applied to the last entry of a list. */
  lemma AppendInServiceYear(es: seq<Entry>, e: Entry, startYear: int)
    requires IsInServiceYear(e.date, startYear)
    ensures InServiceYear(es + [e], startYear) == InServiceYear(es, startYear) + [e]
  {
    var xs := es + [e];
    InServiceYearStep(xs, |es|, startYear);
    assert xs[..|es|] == es && xs[..|es| + 1] == xs;
  }

  /** `LdcInServiceYearStep` applied to the last LDC entry of a list. */
  lemma AppendLdcInServiceYear(ls: seq<LdcEntry>, l: LdcEntry, startYear: int)
    requires IsInServiceYear(l.date, startYear)
    ensures LdcInServiceYear(ls + [l], startYear) == LdcInServiceYear(ls, startYear) + [l]
  {
    var xs := ls + [l];
    LdcInServiceYearStep(xs, |ls|, startYear);
    assert xs[..|ls|] == ls && xs[..|ls| + 1] == xs;
  }

  /** An LDC entry saved for a month (with a year from 1 on) adds its hours to the LDC
      figure of the service year the overview shows for that month. */
  lemma SavedLdcEntryInItsServiceYear(ls: seq<LdcEntry>, ym: YearMonth, hours: int)
    requires ym.year >= 1 && ValidMonth(ym.month)
    ensures var l := LdcEntry(DateKey(ym.year, ym.month), hours);
            LdcTotal(LdcInServiceYear(ls + [l], StartYear(ym))) == LdcTotal(LdcInServiceYear(ls, StartYear(ym))) + hours
  {
    var l := LdcEntry(DateKey(ym.year, ym.month), hours);
    StartYearContainsMonth(ym);
    AppendLdcInServiceYear(ls, l, StartYear(ym));
    LdcTotalAppend(LdcInServiceYear(ls, StartYear(ym)), l);
  }

  /** The figures of the overview dialog (`showOverview`) for the selected month. */
  datatype Overview = Overview(
    startYear: int,
    perService: map<string, int>,
    generalAll: int,
    ldcAll: int,
    serviceYearGeneral: int,
    serviceYearLdc: int)

  /** `showOverview` without its text: the service year is the one holding the selected
      month, its general figure is the sum of its per-service table, so it leaves out
      entries of unknown service types, which the all-time general figure includes. */
  method ShowOverview(d: Dataset, selected: YearMonth) returns (o: Overview)
    ensures o.startYear == StartYear(selected)
    ensures o.perService.Keys == set s | s in ServiceTypes
    ensures forall s :: s in o.perService ==> o.perService[s] == ServiceSum(d.entries, s)
    ensures o.generalAll == TotalHours(d.entries) && o.ldcAll == LdcTotal(d.ldcEntries)
    ensures o.serviceYearGeneral == KnownTotal(InServiceYear(d.entries, o.startYear))
    ensures o.serviceYearLdc == LdcTotal(LdcInServiceYear(d.ldcEntries, o.startYear))
  {
    var startYear := StartYear(selected);
    var perService := HoursByServiceAllTime(d.entries);
    var generalAll := TotalHours(d.entries);
    var ldcAll := LdcTotal(d.ldcEntries);
    var sy := ServiceYearSummary(d.entries, startYear);
    ghost var inYear := InServiceYear(d.entries, startYear);
    assert forall k :: k in ServiceTypes ==> k in sy && sy[k] == ServiceSum(inYear, k);
    var syGeneral := SumValues(ServiceTypes, sy);
    SumValuesOfSums(ServiceTypes, sy, inYear);
    SumAcrossServiceTypes(inYear);
    var syLdc := ServiceYearLdcTotal(d.ldcEntries, startYear);
    o := Overview(startYear, perService, generalAll, ldcAll, syGeneral, syLdc);
  }
}
