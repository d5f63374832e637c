/**
 * What the page computes for the selected borough: the property-type breakdown,
 * the price summary, the rows that have every selected utility, and their price
 * summary (montreal_housing.py, lines 45-49, 78-82 and 134-145).
 */
module Dashboard {
  import opened Wrappers
  import opened Seqs
  import opened Listings
  import opened Stats
  import opened Boroughs

  // ------------------------------------------------ property-type counts

  predicate OfType(t: string, l: Listing)
  {
    l.propertyType == Some(t)
  }

  /** Number of rows of property type `t`. */
  function TypeCount(t: string, rows: seq<Listing>): nat
  {
    CountIf((l: Listing) => OfType(t, l), rows)
  }

  /** Adds one row's property type to a tally; a missing type is not counted. */
  function Tally(m: map<string, nat>, t: Option<string>): map<string, nat>
  {
    match t
    case None => m
    case Some(k) => m[k := if k in m then m[k] + 1 else 1]
  }

  /**
   * The property-type breakdown as a dictionary: each property type that occurs,
   * with its number of rows; missing types are left out.
   */
  function PropertyTypeCounts(rows: seq<Listing>): (m: map<string, nat>)
    ensures forall t :: t in m <==> TypeCount(t, rows) > 0
    ensures forall t :: t in m ==> m[t] == TypeCount(t, rows)
  {
    if rows == [] then map[]
    else
      var rest := PropertyTypeCounts(rows[1..]);
      var m := Tally(rest, rows[0].propertyType);
      forall t ensures (t in m <==> TypeCount(t, rows) > 0) && (t in m ==> m[t] == TypeCount(t, rows)) {
        TallyAt(rest, rows[0].propertyType, t);
        assert TypeCount(t, rows) == (if rows[0].propertyType == Some(t) then 1 else 0) + TypeCount(t, rows[1..]);
      }
      m
  }

  lemma TallyAt(m: map<string, nat>, o: Option<string>, t: string)
    ensures t in Tally(m, o) <==> t in m || o == Some(t)
    ensures t in Tally(m, o) ==> Tally(m, o)[t] == (if t in m then m[t] else 0) + (if o == Some(t) then 1 else 0)
  {
  }

  /** A property type is a key of the breakdown exactly when some row has it. */
  lemma PropertyTypeCountsKeys(rows: seq<Listing>, t: string)
    ensures t in PropertyTypeCounts(rows) <==> exists i :: 0 <= i < |rows| && rows[i].propertyType == Some(t)
  {
    if exists i :: 0 <= i < |rows| && rows[i].propertyType == Some(t) {
      var i :| 0 <= i < |rows| && rows[i].propertyType == Some(t);
      assert OfType(t, rows[i]);
    }
  }

  /** Sum of the counts of a tally. */
  ghost function SumCounts(m: map<string, nat>): nat
    decreases |m|
  {
    if m == map[] then 0
    else
      var k :| k in m;
      m[k] + SumCounts(m - {k})
  }

  /** The sum does not depend on which key is taken out first. */
  lemma {:induction false} SumCountsRemove(m: map<string, nat>, k: string)
    requires k in m
    ensures SumCounts(m) == m[k] + SumCounts(m - {k})
    decreases |m|
  {
    var j :| j in m && SumCounts(m) == m[j] + SumCounts(m - {j});
    if j != k {
      var mj, mk := m - {j}, m - {k};
      assert |mj| < |m| && |mk| < |m|;
      SumCountsRemove(mj, k);
      SumCountsRemove(mk, j);
      assert mj - {k} == mk - {j};
    }
  }

  lemma SumCountsTally(m: map<string, nat>, t: Option<string>)
    ensures SumCounts(Tally(m, t)) == SumCounts(m) + if t.Some? then 1 else 0
  {
    if t.Some? {
      var k := t.value;
      var m' := Tally(m, t);
      SumCountsRemove(m', k);
      if k in m {
        SumCountsRemove(m, k);
        assert m' - {k} == m - {k};
      } else {
        assert m' - {k} == m;
      }
    }
  }

  predicate HasType(l: Listing)
  {
    l.propertyType.Some?
  }

  /** The breakdown accounts for every row whose property type is known, once. */
  lemma {:induction false} PropertyTypeCountsSum(rows: seq<Listing>)
    ensures SumCounts(PropertyTypeCounts(rows)) == CountIf(HasType, rows)
  {
    if rows != [] {
      PropertyTypeCountsSum(rows[1..]);
      SumCountsTally(PropertyTypeCounts(rows[1..]), rows[0].propertyType);
    }
  }

  // ------------------------------------------------------ utility filter

  /**
   * The row mask: every selected utility column of the row holds exactly "Yes".
   * With no selection every row passes; a missing value or any other text in a
   * selected column fails the row.
   */
  function HasUtilities(options: set<Utility>, l: Listing): (b: bool)
    ensures options == {} ==> b
    ensures forall u :: u in options && UtilityValue(l, u) != Some("Yes") ==> !b
  {
    forall u :: u in options ==> UtilityValue(l, u) == Some("Yes")
  }

  /** The rows whose every selected utility column equals "Yes"; no selection keeps all rows. */
  function UtilityFilter(rows: seq<Listing>, options: set<Utility>): (r: seq<Listing>)
    ensures forall i :: 0 <= i < |r| ==> r[i] in rows
    ensures forall i :: 0 <= i < |r| ==> forall u :: u in options ==> UtilityValue(r[i], u) == Some("Yes")
    ensures forall i :: 0 <= i < |rows| && HasUtilities(options, rows[i]) ==> rows[i] in r
  {
    Filter((l: Listing) => HasUtilities(options, l), rows)
  }

  /** The filter keeps a subsequence of the rows, each passing row with its multiplicity. */
  lemma UtilityFilterExact(rows: seq<Listing>, options: set<Utility>, l: Listing)
    ensures IsSubsequence(UtilityFilter(rows, options), rows)
    ensures multiset(UtilityFilter(rows, options))[l] == if HasUtilities(options, l) then multiset(rows)[l] else 0
  {
    var p := (l: Listing) => HasUtilities(options, l);
    FilterIsSubsequence(p, rows);
    FilterMultiplicity(p, rows, l);
  }

  /** An empty selection keeps every row. */
  lemma UtilityFilterEmpty(rows: seq<Listing>)
    ensures UtilityFilter(rows, {}) == rows
  {
    FilterAllTrue((l: Listing) => HasUtilities({}, l), rows);
  }

  /** Filtering by one selection and then another is filtering by both at once. */
  lemma UtilityFilterCompose(rows: seq<Listing>, a: set<Utility>, b: set<Utility>)
    ensures UtilityFilter(UtilityFilter(rows, a), b) == UtilityFilter(rows, a + b)
  {
    FilterFilter((l: Listing) => HasUtilities(b, l), (l: Listing) => HasUtilities(a, l),
      (l: Listing) => HasUtilities(a + b, l), rows);
  }

  /** Applying the same selection twice gives what applying it once gives. */
  lemma UtilityFilterIdempotent(rows: seq<Listing>, options: set<Utility>)
    ensures UtilityFilter(UtilityFilter(rows, options), options) == UtilityFilter(rows, options)
  {
    UtilityFilterCompose(rows, options, options);
    assert options + options == options;
  }

  /** Selecting more utilities keeps a subsequence of what fewer keep. */
  lemma UtilityFilterMonotone(rows: seq<Listing>, a: set<Utility>, b: set<Utility>)
    requires a <= b
    ensures IsSubsequence(UtilityFilter(rows, b), UtilityFilter(rows, a))
  {
    FilterStrongerIsSubsequence((l: Listing) => HasUtilities(b, l), (l: Listing) => HasUtilities(a, l), rows);
  }

  // --------------------------------------------------------- the report

  /**
   * What the script computes for one borough. The page displays all of it
   * except the two medians, which it computes but never shows.
   */
  datatype BoroughReport = BoroughReport(
    name: string,
    count: nat,
    typeCounts: map<string, nat>,
    summary: Option<Summary>,
    selected: seq<Listing>,
    selectedCount: nat,
    selectedSummary: Option<Summary>)

  /**
   * The figures for borough `name` with rows `data`: the property-type breakdown
   * and price summary of the rows, and the same for the rows passing the utility
   * mask. No property type is counted more often than there are listings, the
   * filtered rows are some of the borough's rows, and each summary is missing
   * exactly when its rows have no price.
   */
  function BoroughPage(name: string, data: seq<Listing>, options: set<Utility>): (p: BoroughReport)
    ensures p.count == |data| && p.selectedCount == |p.selected| <= p.count
    ensures forall t :: t in p.typeCounts ==> 0 < p.typeCounts[t] <= p.count
    ensures forall i :: 0 <= i < |p.selected| ==> p.selected[i] in data
    ensures p.summary.None? <==> forall i :: 0 <= i < |data| ==> !HasPrice(data[i])
    ensures p.selectedSummary.None? <==> forall i :: 0 <= i < |p.selected| ==> !HasPrice(p.selected[i])
    ensures p.typeCounts == PropertyTypeCounts(data) && p.summary == PriceSummary(data)
    ensures p.selected == UtilityFilter(data, options) && p.selectedSummary == PriceSummary(p.selected)
  {
    var selected := UtilityFilter(data, options);
    BoroughReport(name, |data|, PropertyTypeCounts(data), PriceSummary(data),
      selected, |selected|, PriceSummary(selected))
  }

  /**
   * The page body for the borough in the selector: present exactly when the
   * selector names one of `group_names`, and then built from that borough's rows.
   */
  function Report(realData: seq<Listing>, indicator: Option<string>, options: set<Utility>): (r: Option<BoroughReport>)
    ensures r.Some? <==> indicator.Some? && indicator.value in GroupKeys(realData)
    ensures r.Some? ==> r.value == BoroughPage(indicator.value, BoroughRows(indicator.value, realData), options)
  {
    match SelectBorough(realData, indicator)
    case None => None
    case Some((name, data)) => Some(BoroughPage(name, data, options))
  }

  /** A report exists exactly for a borough with more than six priced rows, and covers all of them. */
  lemma ReportSelectsBorough(practical: seq<Listing>, indicator: Option<string>, options: set<Utility>)
    ensures Report(KeepLargeBoroughs(practical), indicator, options)
      == if indicator.Some? && Occurrences(indicator.value, practical) > SizeThreshold
         then Some(BoroughPage(indicator.value, BoroughRows(indicator.value, practical), options))
         else None
  {
    SelectBoroughExact(practical, indicator);
    if indicator.Some? {
      GroupNamesAreLargeBoroughs(practical, indicator.value);
    }
  }

  /**
   * On priced rows, the page always has a price summary, and the filtered
   * summary is missing exactly when no row has every selected utility.
   */
  lemma BoroughPageSummaries(name: string, data: seq<Listing>, options: set<Utility>)
    requires |data| > 0
    requires forall i :: 0 <= i < |data| ==> HasPrice(data[i])
    ensures BoroughPage(name, data, options).summary.Some?
    ensures BoroughPage(name, data, options).selectedSummary.None? <==> UtilityFilter(data, options) == []
  {
    PricesOfPricedRows(data);
    var selected := UtilityFilter(data, options);
    assert forall i :: 0 <= i < |selected| ==> HasPrice(selected[i]);
    PricesOfPricedRows(selected);
  }

  lemma PricedBoroughRows(name: string, rows: seq<Listing>)
    requires forall i :: 0 <= i < |rows| ==> HasPrice(rows[i])
    ensures forall i :: 0 <= i < |BoroughRows(name, rows)| ==> HasPrice(BoroughRows(name, rows)[i])
  {
    var data := BoroughRows(name, rows);
    forall i | 0 <= i < |data| ensures HasPrice(data[i]) {
      var j :| 0 <= j < |rows| && rows[j] == data[i];
    }
  }

  /**
   * From the loaded rows to the page of a borough with more than six priced
   * listings: it counts them all, always has a price summary, and the filtered
   * part is the borough's rows having every selected utility, summarised exactly
   * when there is at least one.
   */
  lemma ReportFacts(practical: seq<Listing>, name: string, options: set<Utility>)
    requires forall i :: 0 <= i < |practical| ==> HasPrice(practical[i])
    requires Occurrences(name, practical) > SizeThreshold
    ensures Report(KeepLargeBoroughs(practical), Some(name), options).Some?
    ensures var r := Report(KeepLargeBoroughs(practical), Some(name), options).value;
      && r.name == name
      && r.count == Occurrences(name, practical)
      && r.typeCounts == PropertyTypeCounts(BoroughRows(name, practical))
      && r.summary == PriceSummary(BoroughRows(name, practical))
      && r.summary.Some?
      && r.selected == UtilityFilter(BoroughRows(name, practical), options)
      && r.selectedSummary == PriceSummary(r.selected)
      && r.selectedCount == |r.selected|
      && (r.selectedSummary.None? <==> r.selected == [])
  {
    var data := BoroughRows(name, practical);
    ReportSelectsBorough(practical, Some(name), options);
    assert Report(KeepLargeBoroughs(practical), Some(name), options) == Some(BoroughPage(name, data, options));
    BoroughRowsCount(name, practical);
    PricedBoroughRows(name, practical);
    BoroughPageSummaries(name, data, options);
  }

  /**
   * The whole pipeline, from the file as read to the page: it fails exactly when
   * a chosen column is missing, and otherwise shows a borough exactly when more
   * than six loaded rows belong to it.
   */
  function Page(table: RawTable, indicator: Option<string>, options: set<Utility>): (r: Result<Option<BoroughReport>, LoadError>)
    ensures r.Failure? <==> exists c :: c in SelectedColumns && c !in table.header
    ensures Load(table).Success? ==>
              r.Success? &&
              (r.value.Some? <==> indicator.Some? && Occurrences(indicator.value, Load(table).value) > SizeThreshold)
  {
    match Load(table)
    case Failure(e) => Failure(e)
    case Success(practical) =>
      ReportSelectsBorough(practical, indicator, options);
      Success(Report(KeepLargeBoroughs(practical), indicator, options))
  }
}
