/**
 * The listing table of the one-bedroom rental dashboard and its loader: the raw
 * table is projected onto the twelve chosen columns, then rows without a price
 * are dropped (montreal_housing.py, lines 18-23).
 */
module Listings {
  import opened Wrappers
  import opened Seqs

  /** The utility columns a user can require to be "Yes" (the multiselect options). */
  datatype Utility = Furnished | Heating | Electricity | Cable | Internet | Water

  /**
   * One row after projection. Every cell may be missing (NaN). Utility cells hold
   * the text found in the file ("Yes", "No", ...); prices are whole dollars.
   */
  datatype Listing = Listing(
    propertyType: Option<string>,
    area: Option<real>,
    furnished: Option<string>,
    leaseTerm: Option<string>,
    parkingType: Option<string>,
    heating: Option<string>,
    water: Option<string>,
    cable: Option<string>,
    internet: Option<string>,
    electricity: Option<string>,
    neighborhood: Option<string>,
    price: Option<int>)

  /** The cell of a listing in the column named by a utility. */
  function UtilityValue(l: Listing, u: Utility): Option<string>
  {
    match u
    case Furnished => l.furnished
    case Heating => l.heating
    case Electricity => l.electricity
    case Cable => l.cable
    case Internet => l.internet
    case Water => l.water
  }

  /** The twelve columns kept after loading, in the order the script lists them. */
  const SelectedColumns: seq<string> :=
    ["Property_type", "Area", "Furnished", "Lease_term", "Parking_type", "Heating", "Water",
     "Cable", "Internet", "Electricity", "Neighborhood", "Price"]

  /**
   * One row of the file as read: the cells of the twelve chosen columns, already
   * decoded, and the text of every other column.
   */
  datatype RawRow = RawRow(chosen: Listing, others: map<string, string>)

  /** The file as read: its header and its rows, in file order. */
  datatype RawTable = RawTable(header: seq<string>, rows: seq<RawRow>)

  /** Selecting columns that the header lacks is an error naming them. */
  datatype LoadError = MissingColumns(names: set<string>)

  /** The chosen columns that the header lacks. */
  function MissingFrom(header: seq<string>): (missing: set<string>)
    ensures forall c :: c in missing <==> c in SelectedColumns && c !in header
  {
    set c | c in SelectedColumns && c !in header
  }

  /**
   * Column selection: keeps the twelve columns of every row, in file order,
   * or fails naming the absent columns.
   */
  function Project(table: RawTable): (r: Result<seq<Listing>, LoadError>)
    ensures r.Success? <==> forall c :: c in SelectedColumns ==> c in table.header
    ensures r.Success? ==> |r.value| == |table.rows|
    ensures r.Success? ==> forall i :: 0 <= i < |table.rows| ==> r.value[i] == table.rows[i].chosen
    ensures r.Failure? ==> r.error.names != {}
    ensures r.Failure? ==> forall c :: c in r.error.names <==> c in SelectedColumns && c !in table.header
  {
    var missing := MissingFrom(table.header);
    if missing == {} then
      Success(seq(|table.rows|, i requires 0 <= i < |table.rows| => table.rows[i].chosen))
    else
      assert exists c :: c in missing;
      Failure(MissingColumns(missing))
  }

  predicate HasPrice(l: Listing)
  {
    l.price.Some?
  }

  /** The rows that carry a price, in order (`practical_data`). */
  function DropMissingPrice(rows: seq<Listing>): (r: seq<Listing>)
    ensures forall i :: 0 <= i < |r| ==> HasPrice(r[i])
  {
    Filter(HasPrice, rows)
  }

  /**
   * The price filter keeps exactly the priced rows: each with its multiplicity,
   * in the original order, and as many rows as the input has priced rows.
   */
  lemma DropMissingPriceExact(rows: seq<Listing>)
    ensures IsSubsequence(DropMissingPrice(rows), rows)
    ensures forall l :: multiset(DropMissingPrice(rows))[l] == if HasPrice(l) then multiset(rows)[l] else 0
    ensures |DropMissingPrice(rows)| == CountIf(HasPrice, rows)
  {
    FilterIsSubsequence(HasPrice, rows);
    forall l ensures multiset(DropMissingPrice(rows))[l] == if HasPrice(l) then multiset(rows)[l] else 0 {
      FilterMultiplicity(HasPrice, rows, l);
    }
    FilterLength(HasPrice, rows);
  }

  /** Loading a table whose rows all carry a price loses none of them. */
  lemma {:induction false} DropMissingPriceKeepsPriced(rows: seq<Listing>)
    requires forall i :: 0 <= i < |rows| ==> HasPrice(rows[i])
    ensures DropMissingPrice(rows) == rows
  {
    FilterAllTrue(HasPrice, rows);
  }

  /** The loader: projection, then the price filter (`practical_data`). */
  function Load(table: RawTable): (r: Result<seq<Listing>, LoadError>)
    ensures r.Success? <==> Project(table).Success?
    ensures r.Success? ==> forall i :: 0 <= i < |r.value| ==> HasPrice(r.value[i])
  {
    match Project(table)
    case Success(rows) => Success(DropMissingPrice(rows))
    case Failure(e) => Failure(e)
  }

  /** A loaded row is a projected file row that has a price, and every such row is loaded. */
  lemma LoadMembership(table: RawTable, l: Listing)
    requires Load(table).Success?
    ensures l in Load(table).value <==> HasPrice(l) && exists i :: 0 <= i < |table.rows| && table.rows[i].chosen == l
  {
    var projected := Project(table).value;
    if l in Load(table).value {
      var k :| 0 <= k < |projected| && projected[k] == l;
      assert table.rows[k].chosen == l;
    }
    if HasPrice(l) && exists i :: 0 <= i < |table.rows| && table.rows[i].chosen == l {
      var i :| 0 <= i < |table.rows| && table.rows[i].chosen == l;
      assert projected[i] == l;
    }
  }
}
