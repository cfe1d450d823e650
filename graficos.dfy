/**
 * The charts page (`Graficos`): a tally of documents per relevance label for
 * the doughnut chart, and a twelve-slot count of approvals for the line
 * chart, re-ordered so that the oldest of the last twelve months comes first.
 * Dates are reduced to (year, month) pairs, and the current date is a
 * parameter `now`.
 */
module Graficos {
  import opened Model

  // ---------------------------------------------------------------------
  // Relevance tally (doughnut chart)

  /** The three relevance labels. */
  datatype Relevance = Baja | Media | Alta

  /** Priority 1 is "Baja", 2 is "Media", and any other value is "Alta". */
  function RelevanceOf(priority: int): (r: Relevance)
    ensures r == Baja <==> priority == 1
    ensures r == Media <==> priority == 2
    ensures r == Alta <==> priority != 1 && priority != 2
  {
    if priority == 1 then Baja else if priority == 2 then Media else Alta
  }

  /**
   * The `acc` dictionary of the reduce: its keys in insertion order (the
   * order the chart's labels and values come out in) and the count per key.
   */
  datatype Tally = Tally(keys: seq<Relevance>, counts: map<Relevance, int>)

  /** A dictionary whose key list and count map agree and whose counts are positive. */
  predicate WellFormed(t: Tally)
  {
    && Distinct(t.keys)
    && (forall k :: k in t.counts <==> k in t.keys)
    && (forall k :: k in t.counts ==> t.counts[k] >= 1)
  }

  /** One step of the reduce: `acc[relevance] = (acc[relevance] || 0) + 1`. */
  function Tick(t: Tally, r: Relevance): Tally
  {
    if r in t.counts then Tally(t.keys, t.counts[r := t.counts[r] + 1])
    else Tally(t.keys + [r], t.counts[r := 1])
  }

  /** The reduce over `documents`, from the empty dictionary. */
  function TallyOf(docs: seq<Document>): Tally
  {
    if docs == [] then Tally([], map[])
    else Tick(TallyOf(docs[..|docs| - 1]), RelevanceOf(docs[|docs| - 1].priority))
  }

  /** How many documents carry relevance `r`. */
  function CountRelevance(docs: seq<Document>, r: Relevance): nat
  {
    if docs == [] then 0
    else CountRelevance(docs[..|docs| - 1], r) + (if RelevanceOf(docs[|docs| - 1].priority) == r then 1 else 0)
  }

  /** `Object.values` of the dictionary: the count of each key, in key order. */
  function ValuesOf(keys: seq<Relevance>, counts: map<Relevance, int>): seq<int>
  {
    seq(|keys|, i requires 0 <= i < |keys| => if keys[i] in counts then counts[keys[i]] else 0)
  }

  /** One step of the reduce keeps the dictionary well formed. */
  lemma TickWellFormed(t: Tally, r: Relevance)
    requires WellFormed(t)
    ensures WellFormed(Tick(t, r))
  {
    var t' := Tick(t, r);
    if r !in t.counts {
      DistinctAppend(t.keys, r);
    }
    assert forall k :: k in t'.counts <==> k in t'.keys;
    forall k | k in t'.counts
      ensures t'.counts[k] >= 1
    {
      if k != r {
        assert t'.counts[k] == t.counts[k];
      }
    }
  }

  /** One step of the reduce adds one to the count of `r` and one to the total of the values. */
  lemma TickTotal(t: Tally, r: Relevance)
    requires WellFormed(t)
    ensures Tick(t, r).counts == t.counts[r := (if r in t.counts then t.counts[r] else 0) + 1]
    ensures Sum(ValuesOf(Tick(t, r).keys, Tick(t, r).counts)) == Sum(ValuesOf(t.keys, t.counts)) + 1
  {
    var t' := Tick(t, r);
    var before := ValuesOf(t.keys, t.counts);
    if r in t.counts {
      var i :| 0 <= i < |t.keys| && t.keys[i] == r;
      assert ValuesOf(t'.keys, t'.counts) == before[i := before[i] + 1];
      SumBump(before, i);
    } else {
      assert ValuesOf(t'.keys, t'.counts) == before + [1];
      assert (before + [1])[..|before|] == before;
    }
  }

  lemma DistinctAppend<T>(s: seq<T>, x: T)
    requires Distinct(s) && x !in s
    ensures Distinct(s + [x])
  {
    forall i, j | 0 <= i < j < |s| + 1
      ensures (s + [x])[i] != (s + [x])[j]
    {
      if j == |s| {
        assert s[i] in s;
      }
    }
  }

  /**
   * The reduce builds a well-formed dictionary whose keys are exactly the
   * relevances that occur, whose count for each is the number of documents
   * carrying it, and whose values add up to the number of documents.
   */
  lemma {:induction false} TallyOfCounts(docs: seq<Document>)
    ensures WellFormed(TallyOf(docs))
    ensures forall k :: k in TallyOf(docs).counts <==> CountRelevance(docs, k) > 0
    ensures forall k :: k in TallyOf(docs).counts ==> TallyOf(docs).counts[k] == CountRelevance(docs, k)
    ensures Sum(ValuesOf(TallyOf(docs).keys, TallyOf(docs).counts)) == |docs|
  {
    if docs != [] {
      var init := docs[..|docs| - 1];
      TallyOfCounts(init);
      TickWellFormed(TallyOf(init), RelevanceOf(docs[|docs| - 1].priority));
      TickTotal(TallyOf(init), RelevanceOf(docs[|docs| - 1].priority));
    }
  }

  /** No document carries a relevance whose count is zero. */
  lemma {:induction false} CountZeroAbsent(docs: seq<Document>, r: Relevance)
    requires CountRelevance(docs, r) == 0
    ensures forall q :: 0 <= q < |docs| ==> RelevanceOf(docs[q].priority) != r
  {
    if docs != [] {
      CountZeroAbsent(docs[..|docs| - 1], r);
    }
  }

  /** The position of the first document with relevance `r`. */
  function FirstIndex(docs: seq<Document>, r: Relevance): (p: nat)
    requires CountRelevance(docs, r) > 0
    ensures p < |docs| && RelevanceOf(docs[p].priority) == r
    ensures forall q :: 0 <= q < p ==> RelevanceOf(docs[q].priority) != r
  {
    var init := docs[..|docs| - 1];
    if CountRelevance(init, r) > 0 then FirstIndex(init, r)
    else
      CountZeroAbsent(init, r);
      |docs| - 1
  }

  /** `keys` lists relevances that occur, ordered by where each first occurs. */
  predicate FirstOccurrenceOrder(keys: seq<Relevance>, docs: seq<Document>)
  {
    && (forall i :: 0 <= i < |keys| ==> CountRelevance(docs, keys[i]) > 0)
    && (forall i, j :: 0 <= i < j < |keys| ==> FirstIndex(docs, keys[i]) < FirstIndex(docs, keys[j]))
  }

  /** The reduce inserts each key when its relevance first occurs, so the keys come in that order. */
  lemma {:induction false} TallyKeysInFirstOccurrenceOrder(docs: seq<Document>)
    ensures FirstOccurrenceOrder(TallyOf(docs).keys, docs)
  {
    if docs != [] {
      var init := docs[..|docs| - 1];
      var r := RelevanceOf(docs[|docs| - 1].priority);
      var t := TallyOf(init);
      TallyKeysInFirstOccurrenceOrder(init);
      TallyOfCounts(init);
      var keys := TallyOf(docs).keys;
      forall i | 0 <= i < |t.keys|
        ensures CountRelevance(docs, t.keys[i]) > 0
        ensures FirstIndex(docs, t.keys[i]) == FirstIndex(init, t.keys[i]) < |init|
      {
      }
      if r !in t.counts {
        assert keys == t.keys + [r];
        assert CountRelevance(init, r) == 0;
        assert FirstIndex(docs, r) == |init|;
      } else {
        assert keys == t.keys;
      }
    }
  }

  /**
   * `relevanceCounts`: the reduce over the documents, returned as its key
   * list (`Object.keys`) and its count map. Its keys are the
   * relevances that occur, each once, in order of first occurrence; each
   * count is the number of documents with that relevance and at least 1;
   * the counts add up to the number of documents.
   */
  method RelevanceCounts(docs: seq<Document>) returns (keys: seq<Relevance>, counts: map<Relevance, int>)
    ensures Tally(keys, counts) == TallyOf(docs)
    ensures WellFormed(Tally(keys, counts))
    ensures forall k :: k in counts <==> CountRelevance(docs, k) > 0
    ensures forall k :: k in counts ==> counts[k] == CountRelevance(docs, k)
    ensures Sum(ValuesOf(keys, counts)) == |docs|
    ensures FirstOccurrenceOrder(keys, docs)
  {
    keys, counts := [], map[];
    for i := 0 to |docs|
      invariant Tally(keys, counts) == TallyOf(docs[..i])
    {
      assert docs[..i + 1][..i] == docs[..i];
      var relevance := RelevanceOf(docs[i].priority);
      if relevance !in counts {
        keys := keys + [relevance];
      }
      counts := counts[relevance := (if relevance in counts then counts[relevance] else 0) + 1];
    }
    assert docs[..|docs|] == docs;
    TallyOfCounts(docs);
    TallyKeysInFirstOccurrenceOrder(docs);
  }

  /**
   * `doughnutData`: the chart's labels are `Object.keys(relevanceCounts)` and
   * its data `Object.values(relevanceCounts)`. Every relevance that occurs is
   * labelled once, each value is the number of documents with that label,
   * and the values add up to the number of documents.
   */
  method DoughnutData(docs: seq<Document>) returns (labels: seq<Relevance>, data: seq<int>)
    ensures |data| == |labels|
    ensures Distinct(labels)
    ensures forall r :: r in labels <==> CountRelevance(docs, r) > 0
    ensures forall i :: 0 <= i < |labels| ==> data[i] == CountRelevance(docs, labels[i]) >= 1
    ensures Sum(data) == |docs|
    ensures FirstOccurrenceOrder(labels, docs)
  {
    var keys, counts := RelevanceCounts(docs);
    labels := keys;
    data := ValuesOf(keys, counts);
  }

  // ---------------------------------------------------------------------
  // Approvals per month (line chart)

  /** Months counted from year 0, so that consecutive months differ by one. */
  function MonthNumber(d: YearMonth): int
  {
    d.year * 12 + d.month
  }

  /** The window test of the `forEach`: last year after this month, or this year up to this month. */
  predicate InWindow(d: YearMonth, now: YearMonth)
  {
    (d.year == now.year - 1 && d.month > now.month) || (d.year == now.year && d.month <= now.month)
  }

  /** The window is exactly the current month and the eleven before it. */
  lemma WindowIsTrailingYear(d: YearMonth, now: YearMonth)
    ensures InWindow(d, now) <==> 0 <= MonthNumber(now) - MonthNumber(d) < 12
  {
  }

  /** Whether `doc` adds one to slot `m` of `lineDataCounts`. */
  predicate InSlot(doc: Document, m: Month, now: YearMonth)
  {
    doc.dateApproved.Some? && InWindow(doc.dateApproved.value, now) && doc.dateApproved.value.month == m
  }

  /** The documents approved in month `m` of the window. */
  function CountInSlot(docs: seq<Document>, m: Month, now: YearMonth): nat
  {
    if docs == [] then 0
    else CountInSlot(docs[..|docs| - 1], m, now) + (if InSlot(docs[|docs| - 1], m, now) then 1 else 0)
  }

  /** The documents approved anywhere in the window. */
  function CountInWindow(docs: seq<Document>, now: YearMonth): nat
  {
    if docs == [] then 0
    else
      var d := docs[|docs| - 1].dateApproved;
      CountInWindow(docs[..|docs| - 1], now) + (if d.Some? && InWindow(d.value, now) then 1 else 0)
  }

  /** The documents approved in exactly the month `ym`. */
  function CountApprovedOn(docs: seq<Document>, ym: YearMonth): nat
  {
    if docs == [] then 0
    else CountApprovedOn(docs[..|docs| - 1], ym) + (if docs[|docs| - 1].dateApproved == Some(ym) then 1 else 0)
  }

  /**
   * A document's contribution to a slot does not depend on where it stands
   * in the list: it adds one exactly when it was approved in that month of
   * the window, and a document never approved adds nothing.
   */
  lemma {:induction false} SlotContribution(a: seq<Document>, d: Document, b: seq<Document>, m: Month, now: YearMonth)
    ensures CountInSlot(a + [d] + b, m, now) == CountInSlot(a + b, m, now) + (if InSlot(d, m, now) then 1 else 0)
    ensures d.dateApproved.None? ==> CountInSlot(a + [d] + b, m, now) == CountInSlot(a + b, m, now)
  {
    if b == [] {
      assert (a + [d] + b)[..|a + [d] + b| - 1] == a + b;
    } else {
      var b' := b[..|b| - 1];
      SlotContribution(a, d, b', m, now);
      assert (a + [d] + b)[..|a + [d] + b| - 1] == a + [d] + b';
      assert (a + b)[..|a + b| - 1] == a + b';
    }
  }

  /** A slot counts exactly the approvals of the one month of the window that carries its number. */
  lemma {:induction false} SlotIsItsMonth(docs: seq<Document>, ym: YearMonth, now: YearMonth)
    requires InWindow(ym, now)
    ensures CountInSlot(docs, ym.month, now) == CountApprovedOn(docs, ym)
  {
    if docs != [] {
      SlotIsItsMonth(docs[..|docs| - 1], ym, now);
    }
  }

  function Sum(s: seq<int>): int
  {
    if s == [] then 0 else Sum(s[..|s| - 1]) + s[|s| - 1]
  }

  lemma {:induction false} SumBump(s: seq<int>, k: nat)
    requires k < |s|
    ensures Sum(s[k := s[k] + 1]) == Sum(s) + 1
  {
    var init := s[..|s| - 1];
    if k == |s| - 1 {
      assert s[k := s[k] + 1][..|s| - 1] == init;
    } else {
      SumBump(init, k);
      assert s[k := s[k] + 1][..|s| - 1] == init[k := s[k] + 1];
    }
  }

  lemma {:induction false} SumZero(s: seq<int>)
    requires forall i :: 0 <= i < |s| ==> s[i] == 0
    ensures Sum(s) == 0
  {
    if s != [] {
      SumZero(s[..|s| - 1]);
    }
  }

  lemma {:induction false} SumConcat(a: seq<int>, b: seq<int>)
    ensures Sum(a + b) == Sum(a) + Sum(b)
  {
    if b == [] {
      assert a + b == a;
    } else {
      SumConcat(a, b[..|b| - 1]);
      assert (a + b)[..|a + b| - 1] == a + b[..|b| - 1];
    }
  }

  /**
   * `lineDataCounts`: twelve slots, slot `m` holding the number of documents
   * approved in the month of the window numbered `m`; together they count
   * every document approved in the window.
   */
  method LineDataCounts(docs: seq<Document>, now: YearMonth) returns (counts: seq<int>)
    ensures |counts| == 12
    ensures forall m :: 0 <= m < 12 ==> counts[m] == CountInSlot(docs, m, now) >= 0
    ensures Sum(counts) == CountInWindow(docs, now)
  {
    var slots := new int[12](_ => 0);
    SumZero(slots[..]);
    assert docs[..0] == [];
    for i := 0 to |docs|
      invariant forall m :: 0 <= m < 12 ==> slots[m] == CountInSlot(docs[..i], m, now)
      invariant Sum(slots[..]) == CountInWindow(docs[..i], now)
    {
      assert docs[..i + 1][..i] == docs[..i];
      var doc := docs[i];
      if doc.dateApproved.Some? {
        var approved := doc.dateApproved.value;
        if approved.year == now.year - 1 && approved.month > now.month {
          SumBump(slots[..], approved.month);
          slots[approved.month] := slots[approved.month] + 1;
        } else if approved.year == now.year && approved.month <= now.month {
          SumBump(slots[..], approved.month);
          slots[approved.month] := slots[approved.month] + 1;
        }
      }
    }
    assert docs[..|docs|] == docs;
    counts := slots[..];
  }

  // ---------------------------------------------------------------------
  // Month labels and chronological order

  /**
   * The month `k` months before `now`, as `new Date(currentYear,
   * currentMonth - k)` normalises it (a negative month rolls back into the
   * previous year).
   */
  function MonthsBefore(now: YearMonth, k: int): YearMonth
  {
    YearMonth(now.year + (now.month - k) / 12, (now.month - k) % 12)
  }

  /** `MonthsBefore` really is `k` months back. */
  lemma MonthsBeforeNumber(now: YearMonth, k: int)
    ensures MonthNumber(MonthsBefore(now, k)) == MonthNumber(now) - k
  {
  }

  /** The months 0..11 back from `now` are the months of the window, each named once. */
  lemma MonthsBeforeInWindow(now: YearMonth, k: int)
    requires 0 <= k < 12
    ensures InWindow(MonthsBefore(now, k), now)
    ensures k <= now.month ==> MonthsBefore(now, k) == YearMonth(now.year, now.month - k)
    ensures k > now.month ==> MonthsBefore(now, k) == YearMonth(now.year - 1, now.month - k + 12)
  {
    MonthsBeforeNumber(now, k);
    WindowIsTrailingYear(MonthsBefore(now, k), now);
  }

  /**
   * The first `labels` loop: slot `i` is the month number of `i` months ago.
   * The twelve entries are a permutation of 0..11.
   */
  method SlotOrder(now: YearMonth) returns (labels: seq<Month>)
    ensures |labels| == 12
    ensures forall i :: 0 <= i < 12 ==> labels[i] == MonthsBefore(now, i).month
    ensures Distinct(labels)
    ensures forall m :: 0 <= m < 12 ==> m in labels
  {
    labels := [];
    for i := 0 to 12
      invariant |labels| == i
      invariant forall j :: 0 <= j < i ==> labels[j] == MonthsBefore(now, j).month
    {
      labels := labels + [(now.month - i) % 12];
    }
    forall i, j | 0 <= i < j < 12
      ensures labels[i] != labels[j]
    {
      MonthsBeforeInWindow(now, i);
      MonthsBeforeInWindow(now, j);
    }
    forall m | 0 <= m < 12
      ensures m in labels
    {
      var k := if m <= now.month then now.month - m else now.month - m + 12;
      MonthsBeforeInWindow(now, k);
      assert labels[k] == m;
    }
  }

  /** The `labels.map` that pushes `lineDataCounts[label]` for each label in turn. */
  method Reorder(counts: seq<int>, labels: seq<Month>) returns (order: seq<int>)
    requires |counts| == 12
    ensures |order| == |labels|
    ensures forall i :: 0 <= i < |labels| ==> order[i] == counts[labels[i]]
  {
    order := [];
    for i := 0 to |labels|
      invariant |order| == i
      invariant forall j :: 0 <= j < i ==> order[j] == counts[labels[j]]
    {
      order := order + [counts[labels[i]]];
    }
  }

  /** A chart label `"<month> / <year>"`, with the month counted from 1. */
  datatype MonthLabel = MonthLabel(month: int, year: int)

  function LabelOf(d: YearMonth): (l: MonthLabel)
    ensures 1 <= l.month <= 12
  {
    MonthLabel(d.month + 1, d.year)
  }

  /** The second `labels` loop: label `i` names the month `i` months ago. */
  method DateLabels(now: YearMonth) returns (labels: seq<MonthLabel>)
    ensures |labels| == 12
    ensures forall i :: 0 <= i < 12 ==> labels[i] == LabelOf(MonthsBefore(now, i))
  {
    labels := [];
    for i := 0 to 12
      invariant |labels| == i
      invariant forall j :: 0 <= j < i ==> labels[j] == LabelOf(MonthsBefore(now, j))
    {
      var monthDate := YearMonth(now.year + (now.month - i) / 12, (now.month - i) % 12);
      labels := labels + [MonthLabel(monthDate.month + 1, monthDate.year)];
    }
  }

  /** `Array.prototype.reverse`. */
  function Reversed<T>(s: seq<T>): (r: seq<T>)
    ensures |r| == |s|
    ensures forall i :: 0 <= i < |s| ==> r[i] == s[|s| - 1 - i]
  {
    if s == [] then [] else [s[|s| - 1]] + Reversed(s[..|s| - 1])
  }

  /**
   * Reading the slots in `SlotOrder` and then reversing rotates them so that
   * the slot after the current month comes first and the current month last.
   */
  lemma {:induction false} ReorderIsRotation(counts: seq<int>, order: seq<int>, now: YearMonth)
    requires |counts| == 12 && |order| == 12
    requires forall i :: 0 <= i < 12 ==> order[i] == counts[MonthsBefore(now, i).month]
    ensures Reversed(order) == counts[now.month + 1..] + counts[..now.month + 1]
  {
    var rotated := counts[now.month + 1..] + counts[..now.month + 1];
    forall j | 0 <= j < 12
      ensures Reversed(order)[j] == rotated[j]
    {
      MonthsBeforeInWindow(now, 11 - j);
    }
  }

  /** A rotation loses and duplicates nothing: the multiset of counts is the same. */
  lemma RotationKeepsCounts(s: seq<int>, k: nat)
    requires k <= |s|
    ensures multiset(s[k..] + s[..k]) == multiset(s)
  {
    assert s == s[..k] + s[k..];
  }

  /** A rotation keeps the total. */
  lemma {:induction false} RotationKeepsTotal(s: seq<int>, k: nat)
    requires k <= |s|
    ensures Sum(s[k..] + s[..k]) == Sum(s)
  {
    assert s == s[..k] + s[k..];
    SumConcat(s[k..], s[..k]);
    SumConcat(s[..k], s[k..]);
  }

  /**
   * `lineData`: twelve labels and twelve counts, oldest month first. Label
   * `j` and count `j` both belong to the month `11 - j` months ago, so the
   * last pair is the current month; the count is the number of documents
   * approved in exactly that month, and the counts add up to the approvals
   * in the window.
   */
  method LineData(docs: seq<Document>, now: YearMonth) returns (labels: seq<MonthLabel>, data: seq<int>)
    ensures |labels| == 12 && |data| == 12
    ensures forall j :: 0 <= j < 12 ==> labels[j] == LabelOf(MonthsBefore(now, 11 - j))
    ensures forall j :: 0 <= j < 12 ==> data[j] == CountApprovedOn(docs, MonthsBefore(now, 11 - j))
    ensures labels[11] == LabelOf(now) && data[11] == CountApprovedOn(docs, now)
    ensures Sum(data) == CountInWindow(docs, now)
  {
    var lineDataCounts := LineDataCounts(docs, now);
    var slots := SlotOrder(now);
    var orderLineDataCounts := Reorder(lineDataCounts, slots);
    var dateLabels := DateLabels(now);
    labels := Reversed(dateLabels);
    data := Reversed(orderLineDataCounts);
    ChartCountsAreMonths(docs, now, lineDataCounts, orderLineDataCounts);
    assert MonthsBefore(now, 0) == now;
  }

  /**
   * Reordering the slots by the label order and reversing puts at position
   * `j` the approvals of the month `11 - j` months ago, and keeps the total.
   */
  lemma ChartCountsAreMonths(docs: seq<Document>, now: YearMonth, counts: seq<int>, order: seq<int>)
    requires |counts| == 12 && forall m :: 0 <= m < 12 ==> counts[m] == CountInSlot(docs, m, now)
    requires |order| == 12 && forall i :: 0 <= i < 12 ==> order[i] == counts[MonthsBefore(now, i).month]
    ensures forall j :: 0 <= j < 12 ==> Reversed(order)[j] == CountApprovedOn(docs, MonthsBefore(now, 11 - j))
    ensures Sum(Reversed(order)) == Sum(counts)
  {
    forall j | 0 <= j < 12
      ensures Reversed(order)[j] == CountApprovedOn(docs, MonthsBefore(now, 11 - j))
    {
      MonthsBeforeInWindow(now, 11 - j);
      SlotIsItsMonth(docs, MonthsBefore(now, 11 - j), now);
    }
    ReorderIsRotation(counts, order, now);
    RotationKeepsTotal(counts, now.month + 1);
  }

  /** Consecutive chart entries are consecutive months, ending with the current one. */
  lemma ChartMonthsConsecutive(now: YearMonth, j: int)
    requires 0 <= j < 11
    ensures MonthNumber(MonthsBefore(now, 11 - (j + 1))) == MonthNumber(MonthsBefore(now, 11 - j)) + 1
    ensures MonthsBefore(now, 0) == now
  {
    MonthsBeforeNumber(now, 11 - j);
    MonthsBeforeNumber(now, 11 - (j + 1));
  }
}
