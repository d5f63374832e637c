/**
 * Grouping the priced listings by neighbourhood: boroughs with more than six
 * listings are kept, their names listed in sorted order for the selector, and
 * the selected borough's rows found by scanning the groups
 * (montreal_housing.py, lines 27-33 and 45-48).
 */
module Boroughs {
  import opened Wrappers
  import opened Seqs
  import opened Listings

  /** A borough is kept when it has strictly more listings than this. */
  const SizeThreshold: nat := 6

  // ------------------------------------------------ ordering of group keys

  /** Python's string order: code point by code point, a proper prefix first. */
  predicate StrLess(a: string, b: string)
  {
    if a == [] then b != []
    else if b == [] then false
    else if a[0] == b[0] then StrLess(a[1..], b[1..])
    else a[0] < b[0]
  }

  lemma {:induction false} StrLessIrreflexive(a: string)
    ensures !StrLess(a, a)
  {
    if a != [] {
      StrLessIrreflexive(a[1..]);
    }
  }

  lemma {:induction false} StrLessTransitive(a: string, b: string, c: string)
    requires StrLess(a, b) && StrLess(b, c)
    ensures StrLess(a, c)
  {
    if a != [] && b != [] && c != [] && a[0] == b[0] && b[0] == c[0] {
      StrLessTransitive(a[1..], b[1..], c[1..]);
    }
  }

  lemma {:induction false} StrLessTotal(a: string, b: string)
    requires a != b
    ensures StrLess(a, b) || StrLess(b, a)
  {
    if a != [] && b != [] && a[0] == b[0] {
      assert a == [a[0]] + a[1..] && b == [b[0]] + b[1..];
      StrLessTotal(a[1..], b[1..]);
    }
  }

  ghost predicate StrictlySorted(names: seq<string>)
  {
    forall i, j :: 0 <= i < j < |names| ==> StrLess(names[i], names[j])
  }

  /** Adds `name` to a strictly sorted list of names, unless it is there already. */
  function InsertName(name: string, names: seq<string>): (r: seq<string>)
    requires StrictlySorted(names)
    ensures StrictlySorted(r)
    ensures forall n :: n in r <==> n == name || n in names
  {
    if names == [] then [name]
    else if name == names[0] then names
    else if StrLess(name, names[0]) then
      forall j | 0 <= j < |names| ensures StrLess(name, names[j]) {
        if j > 0 { StrLessTransitive(name, names[0], names[j]); }
      }
      [name] + names
    else
      StrLessTotal(name, names[0]);
      var rest := InsertName(name, names[1..]);
      assert forall i :: 0 <= i < |rest| ==> StrLess(names[0], rest[i]) by {
        forall i | 0 <= i < |rest| ensures StrLess(names[0], rest[i]) {
          assert rest[i] in rest;
          if rest[i] != name {
            var j :| 0 <= j < |names[1..]| && names[1..][j] == rest[i];
            assert names[j + 1] == rest[i];
          }
        }
      }
      [names[0]] + rest
  }

  /** The neighbourhood names that occur in the rows. */
  ghost function Neighborhoods(rows: seq<Listing>): set<string>
  {
    set i | 0 <= i < |rows| && rows[i].neighborhood.Some? :: rows[i].neighborhood.value
  }

  /**
   * The keys of a grouping by neighbourhood: distinct, sorted, missing values
   * dropped. Applied to `real_data` these are `group_names`, the names the
   * selector offers.
   */
  function GroupKeys(rows: seq<Listing>): (names: seq<string>)
    ensures StrictlySorted(names)
    ensures forall n :: n in names <==> n in Neighborhoods(rows)
  {
    if rows == [] then []
    else
      var rest := GroupKeys(rows[1..]);
      assert forall n :: n in Neighborhoods(rows) <==>
        rows[0].neighborhood == Some(n) || n in Neighborhoods(rows[1..]) by {
        forall n ensures n in Neighborhoods(rows) <==> rows[0].neighborhood == Some(n) || n in Neighborhoods(rows[1..]) {
          if n in Neighborhoods(rows) {
            var i :| 0 <= i < |rows| && rows[i].neighborhood == Some(n);
            if i > 0 { assert rows[1..][i - 1] == rows[i]; }
          }
          if n in Neighborhoods(rows[1..]) {
            var i :| 0 <= i < |rows[1..]| && rows[1..][i].neighborhood == Some(n);
            assert rows[i + 1] == rows[1..][i];
          }
        }
      }
      match rows[0].neighborhood
      case Some(n) => InsertName(n, rest)
      case None => rest
  }

  /** The group keys are distinct, so at most one group matches the selector. */
  lemma GroupKeysDistinct(rows: seq<Listing>)
    ensures forall i, j :: 0 <= i < j < |GroupKeys(rows)| ==> GroupKeys(rows)[i] != GroupKeys(rows)[j]
  {
    var ks := GroupKeys(rows);
    forall i, j | 0 <= i < j < |ks| ensures ks[i] != ks[j] {
      if ks[i] == ks[j] {
        StrLessIrreflexive(ks[i]);
      }
    }
  }

  // ------------------------------------------------------- size threshold

  predicate InBorough(name: string, l: Listing)
  {
    l.neighborhood == Some(name)
  }

  /** Size of the group of `name`: zero exactly when no row is in that borough. */
  function Occurrences(name: string, rows: seq<Listing>): (n: nat)
    ensures n <= |rows|
    ensures n == 0 <==> forall i :: 0 <= i < |rows| ==> rows[i].neighborhood != Some(name)
  {
    CountIf((l: Listing) => InBorough(name, l), rows)
  }

  /** The row's group size exceeds the threshold; rows without a neighbourhood belong to no group. */
  predicate InLargeBorough(rows: seq<Listing>, l: Listing)
  {
    l.neighborhood.Some? && Occurrences(l.neighborhood.value, rows) > SizeThreshold
  }

  /** `real_data`: rows whose neighbourhood group has more than six rows. */
  function KeepLargeBoroughs(rows: seq<Listing>): (r: seq<Listing>)
    ensures forall i :: 0 <= i < |r| ==> InLargeBorough(rows, r[i])
  {
    Filter((l: Listing) => InLargeBorough(rows, l), rows)
  }

  /**
   * A row survives the threshold exactly when its borough has more than six
   * rows; survivors keep their multiplicity and their relative order.
   */
  lemma KeepLargeBoroughsExact(rows: seq<Listing>, l: Listing)
    ensures l in KeepLargeBoroughs(rows) <==> l in rows && InLargeBorough(rows, l)
    ensures multiset(KeepLargeBoroughs(rows))[l] == if InLargeBorough(rows, l) then multiset(rows)[l] else 0
    ensures IsSubsequence(KeepLargeBoroughs(rows), rows)
  {
    var p := (l: Listing) => InLargeBorough(rows, l);
    FilterMultiplicity(p, rows, l);
    FilterIsSubsequence(p, rows);
  }

  /** Boroughs are kept or dropped whole: a kept borough keeps all its rows. */
  lemma OccurrencesAfterThreshold(rows: seq<Listing>, name: string)
    ensures Occurrences(name, KeepLargeBoroughs(rows))
      == if Occurrences(name, rows) > SizeThreshold then Occurrences(name, rows) else 0
  {
    var p := (l: Listing) => InLargeBorough(rows, l);
    var q := (l: Listing) => InBorough(name, l);
    CountAfterFilter(p, q, Occurrences(name, rows) > SizeThreshold, rows);
  }

  /** Applying the threshold a second time changes nothing. */
  lemma KeepLargeBoroughsIdempotent(rows: seq<Listing>)
    ensures KeepLargeBoroughs(KeepLargeBoroughs(rows)) == KeepLargeBoroughs(rows)
  {
    var kept := KeepLargeBoroughs(rows);
    forall i | 0 <= i < |kept| ensures InLargeBorough(kept, kept[i]) {
      OccurrencesAfterThreshold(rows, kept[i].neighborhood.value);
    }
    FilterAllTrue((l: Listing) => InLargeBorough(kept, l), kept);
  }

  /**
   * After the threshold, the selector offers a borough exactly when the priced
   * rows hold more than six listings of it, and then it has at least seven rows.
   */
  lemma GroupNamesAreLargeBoroughs(practical: seq<Listing>, name: string)
    ensures StrictlySorted(GroupKeys(KeepLargeBoroughs(practical)))
    ensures name in GroupKeys(KeepLargeBoroughs(practical)) <==> Occurrences(name, practical) > SizeThreshold
    ensures name in GroupKeys(KeepLargeBoroughs(practical)) ==>
      Occurrences(name, KeepLargeBoroughs(practical)) == Occurrences(name, practical) >= 7
  {
    var kept := KeepLargeBoroughs(practical);
    OccurrencesAfterThreshold(practical, name);
    if name in Neighborhoods(kept) {
      var i :| 0 <= i < |kept| && kept[i].neighborhood == Some(name);
      assert InLargeBorough(practical, kept[i]);
    }
    if Occurrences(name, practical) > SizeThreshold {
      assert Occurrences(name, kept) > 0;
      var i :| 0 <= i < |kept| && InBorough(name, kept[i]);
      assert name in Neighborhoods(kept);
    }
  }

  // ---------------------------------------------------- borough selection

  /** The rows of one borough's group, in table order. */
  function BoroughRows(name: string, rows: seq<Listing>): (r: seq<Listing>)
    ensures forall i :: 0 <= i < |r| ==> r[i] in rows && r[i].neighborhood == Some(name)
    ensures forall i :: 0 <= i < |rows| && rows[i].neighborhood == Some(name) ==> rows[i] in r
  {
    Filter((l: Listing) => InBorough(name, l), rows)
  }

  /** A borough's rows number as many as its occurrences. */
  lemma BoroughRowsCount(name: string, rows: seq<Listing>)
    ensures |BoroughRows(name, rows)| == Occurrences(name, rows)
  {
    FilterLength((l: Listing) => InBorough(name, l), rows);
  }

  /**
   * `get_group` returns the borough's rows in table order, each as often as it
   * occurs in the table, and no row of another borough.
   */
  lemma BoroughRowsExact(name: string, rows: seq<Listing>, l: Listing)
    ensures IsSubsequence(BoroughRows(name, rows), rows)
    ensures multiset(BoroughRows(name, rows))[l] == if l.neighborhood == Some(name) then multiset(rows)[l] else 0
  {
    FilterIsSubsequence((x: Listing) => InBorough(name, x), rows);
    FilterMultiplicity((x: Listing) => InBorough(name, x), rows, l);
  }

  /**
   * `data_grouped`: one group per neighbourhood that occurs, in strictly sorted
   * key order; every group is non-empty and holds all the rows of its own
   * neighbourhood and no others.
   */
  function Groups(realData: seq<Listing>): (gs: seq<(string, seq<Listing>)>)
    ensures forall i, j :: 0 <= i < j < |gs| ==> StrLess(gs[i].0, gs[j].0)
    ensures forall i :: 0 <= i < |gs| ==> |gs[i].1| > 0
    ensures forall i, k :: 0 <= i < |gs| && 0 <= k < |gs[i].1| ==> gs[i].1[k].neighborhood == Some(gs[i].0)
    ensures forall n :: n in Neighborhoods(realData) <==> exists i :: 0 <= i < |gs| && gs[i].0 == n
    ensures forall i, k :: 0 <= i < |gs| && 0 <= k < |realData| && realData[k].neighborhood == Some(gs[i].0) ==> realData[k] in gs[i].1
    ensures forall i :: 0 <= i < |gs| ==> gs[i].1 == BoroughRows(gs[i].0, realData)
  {
    var names := GroupKeys(realData);
    var gs := seq(|names|, i requires 0 <= i < |names| => (names[i], BoroughRows(names[i], realData)));
    assert forall i :: 0 <= i < |gs| ==> |gs[i].1| > 0 by {
      forall i | 0 <= i < |gs| ensures |gs[i].1| > 0 {
        assert names[i] in Neighborhoods(realData);
        var j :| 0 <= j < |realData| && realData[j].neighborhood.Some? && realData[j].neighborhood.value == names[i];
        assert realData[j] in gs[i].1;
      }
    }
    assert forall n :: n in Neighborhoods(realData) ==> exists i :: 0 <= i < |gs| && gs[i].0 == n by {
      forall n | n in Neighborhoods(realData) ensures exists i :: 0 <= i < |gs| && gs[i].0 == n {
        var i :| 0 <= i < |names| && names[i] == n;
        assert gs[i].0 == n;
      }
    }
    gs
  }

  /** The loop over the groups: the rows of the group whose key equals the selection. */
  function Scan(groups: seq<(string, seq<Listing>)>, indicator: Option<string>): (r: Option<(string, seq<Listing>)>)
    ensures r.Some? ==> r.value in groups && indicator == Some(r.value.0)
    ensures r.None? ==> forall i :: 0 <= i < |groups| ==> indicator != Some(groups[i].0)
  {
    if groups == [] then None
    else if indicator == Some(groups[0].0) then Some(groups[0])
    else Scan(groups[1..], indicator)
  }

  /**
   * The selected borough's name and rows: present exactly when the selector holds
   * one of `group_names`, and then the whole group of that name, in table order.
   * When the selector is empty or names no kept borough, nothing is shown.
   */
  function SelectBorough(realData: seq<Listing>, indicator: Option<string>): (r: Option<(string, seq<Listing>)>)
    ensures r.Some? <==> indicator.Some? && indicator.value in GroupKeys(realData)
    ensures r.Some? ==> r.value.0 == indicator.value && r.value.1 == BoroughRows(indicator.value, realData)
  {
    var gs := Groups(realData);
    var names := GroupKeys(realData);
    var r := Scan(gs, indicator);
    if r.Some? then
      var j :| 0 <= j < |gs| && gs[j] == r.value;
      assert names[j] == r.value.0;
      r
    else
      assert indicator.Some? ==> forall k :: 0 <= k < |names| ==> names[k] != indicator.value by {
        if indicator.Some? {
          forall k | 0 <= k < |names| ensures names[k] != indicator.value {
            assert gs[k].0 == names[k];
          }
        }
      }
      r
  }

  /**
   * Selecting `name` yields exactly the rows of that borough, in order, and only
   * for the names the selector offers; the page then reports more than six listings.
   */
  lemma SelectBoroughExact(practical: seq<Listing>, indicator: Option<string>)
    ensures var realData := KeepLargeBoroughs(practical);
      var r := SelectBorough(realData, indicator);
      && (r.Some? <==> indicator.Some? && Occurrences(indicator.value, practical) > SizeThreshold)
      && (r.Some? ==>
            && r.value.0 == indicator.value
            && r.value.1 == BoroughRows(indicator.value, practical)
            && |r.value.1| > SizeThreshold)
  {
    var realData := KeepLargeBoroughs(practical);
    if indicator.Some? {
      var name := indicator.value;
      GroupNamesAreLargeBoroughs(practical, name);
      if name in GroupKeys(realData) {
        BoroughRowsFromPractical(practical, name);
        BoroughRowsCount(name, realData);
      }
    }
  }

  /** A kept borough's rows are the same whether taken before or after the threshold. */
  lemma BoroughRowsFromPractical(practical: seq<Listing>, name: string)
    requires Occurrences(name, practical) > SizeThreshold
    ensures BoroughRows(name, KeepLargeBoroughs(practical)) == BoroughRows(name, practical)
  {
    var p := (l: Listing) => InLargeBorough(practical, l);
    var q := (l: Listing) => InBorough(name, l);
    FilterFilter(q, p, q, practical);
  }
}
