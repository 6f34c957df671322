/** The ranked tables of a profile: the heaviest entries, and one row for all the others. */
module Ranking {
  import opened Machine
  import opened Sums
  import opened FoldedProfiles

  datatype Row = Row(name: string, count: u64)

  /** Lexicographic order of labels. */
  predicate NameLess(a: string, b: string) {
    b != [] && (a == [] || a[0] < b[0] || (a[0] == b[0] && NameLess(a[1..], b[1..])))
  }

  lemma {:induction false} NamesAreOrdered(a: string, b: string)
    ensures a == b || NameLess(a, b) || NameLess(b, a)
    ensures !(NameLess(a, b) && NameLess(b, a)) && !NameLess(a, a)
  {
    if a != [] {
      NamesAreOrdered(a[1..], a[1..]);
      if b != [] && a[0] == b[0] {
        NamesAreOrdered(a[1..], b[1..]);
        assert a == [a[0]] + a[1..] && b == [b[0]] + b[1..];
      }
    }
  }

  lemma {:induction false} NamesAreTransitive(a: string, b: string, c: string)
    requires NameLess(a, b) && NameLess(b, c)
    ensures NameLess(a, c)
  {
    if a != [] && a[0] == b[0] && b[0] == c[0] {
      NamesAreTransitive(a[1..], b[1..], c[1..]);
    }
  }

  /** The heavier row comes first, and of equally heavy ones the alphabetically smaller. */
  predicate Before(a: Row, b: Row) {
    a.count > b.count || (a.count == b.count && NameLess(a.name, b.name))
  }

  lemma BeforeIsTransitive(a: Row, b: Row, c: Row)
    requires Before(a, b) && Before(b, c)
    ensures Before(a, c)
  {
    if a.count == b.count == c.count {
      NamesAreTransitive(a.name, b.name, c.name);
    }
  }

  /** The row of a map that comes before all its others. */
  method First(values: Buckets) returns (row: Row)
    requires values != map[]
    ensures row.name in values && values[row.name] == row.count
    ensures forall name | name in values && name != row.name :: Before(row, Row(name, values[name]))
  {
    var start :| start in values;
    row := Row(start, values[start]);
    var left := values.Keys - {start};
    while left != {}
      invariant left <= values.Keys
      invariant row.name in values && row.name !in left && values[row.name] == row.count
      invariant forall name | name in values && name !in left && name != row.name ::
        Before(row, Row(name, values[name]))
      decreases left
    {
      var name :| name in left;
      var other := Row(name, values[name]);
      NamesAreOrdered(row.name, other.name);
      if Before(other, row) {
        forall seen | seen in values && seen !in left && seen != row.name
          ensures Before(other, Row(seen, values[seen]))
        {
          BeforeIsTransitive(other, row, Row(seen, values[seen]));
        }
        row := other;
      }
      left := left - {name};
    }
  }

  function Count(row: Row): nat { row.count }

  /** Rows list a map: every entry once. */
  ghost predicate Lists(rows: seq<Row>, values: Buckets) {
    && (forall k | 0 <= k < |rows| :: rows[k].name in values && values[rows[k].name] == rows[k].count)
    && (forall name | name in values :: exists k | 0 <= k < |rows| :: rows[k].name == name)
  }

  /** Each row comes before every later one; so none is repeated. */
  predicate Ranked(rows: seq<Row>) {
    forall i, j | 0 <= i < j < |rows| :: Before(rows[i], rows[j])
  }

  /** All entries of a map in rank order. */
  method SortedRows(values: Buckets) returns (rows: seq<Row>)
    ensures Lists(rows, values) && Ranked(rows) && SumOf(rows, Count) == Total(values)
  {
    hide Before, SumOf, Total, Leads;
    rows := [];
    var left := values;
    NothingLeads(values);
    SumOfNone(Count);
    while left != map[]
      invariant forall name | name in left :: name in values && left[name] == values[name]
      invariant forall k | 0 <= k < |rows| :: rows[k].name in values && values[rows[k].name] == rows[k].count
      invariant forall name | name in values :: name in left || exists k | 0 <= k < |rows| :: rows[k].name == name
      invariant Ranked(rows) && Leads(rows, left)
      invariant SumOf(rows, Count) + Total(left) == Total(values)
      decreases |left|
    {
      var row := First(left);
      TotalRemove(left, row.name);
      SumOfAppend(rows, [row], Count);
      SumOfOne(row, Count);
      Appends(rows, row, left);
      ghost var before := rows;
      rows := rows + [row];
      assert rows[|before|] == row && forall k | 0 <= k < |before| :: rows[k] == before[k];
      left := left - {row.name};
    }
  }

  /** Every row comes before every entry still left. */
  ghost predicate Leads(rows: seq<Row>, left: Buckets) {
    forall k, name | 0 <= k < |rows| && name in left :: Before(rows[k], Row(name, left[name]))
  }

  lemma NothingLeads(left: Buckets)
    ensures Leads([], left) && Total(map[]) == 0
  {}

  lemma Appends(rows: seq<Row>, row: Row, left: Buckets)
    requires Ranked(rows) && Leads(rows, left) && row.name in left && left[row.name] == row.count
    requires forall name | name in left && name != row.name :: Before(row, Row(name, left[name]))
    ensures Ranked(rows + [row]) && Leads(rows + [row], left - {row.name})
  {
    hide Before;
    forall k | 0 <= k < |rows| ensures Before(rows[k], row) {
      assert Before(rows[k], Row(row.name, left[row.name]));
    }
  }

  /** Rank order leaves no choice: two rankings of one map are the same. */
  lemma {:induction false} RankingIsUnique(one: seq<Row>, other: seq<Row>, values: Buckets)
    requires Lists(one, values) && Lists(other, values) && Ranked(one) && Ranked(other)
    ensures one == other
  {
    hide Ranked, Lists;
    EmptyListing(one, values);
    EmptyListing(other, values);
    if one != [] {
      SameHead(one, other, values);
      ListsTail(one, values);
      ListsTail(other, values);
      RankingIsUnique(one[1..], other[1..], values - {one[0].name});
      assert one == [one[0]] + one[1..] && other == [other[0]] + other[1..];
    }
  }

  lemma EmptyListing(rows: seq<Row>, values: Buckets)
    requires Lists(rows, values)
    ensures rows == [] <==> values == map[]
    ensures rows != [] ==> rows[0].name in values && values[rows[0].name] == rows[0].count
  {
    if rows == [] {
      assert forall name :: name !in values;
      assert values == map[];
    } else {
      assert rows[0].name in values.Keys;
    }
  }

  lemma Irreflexive(a: Row, b: Row)
    ensures !(Before(a, b) && Before(b, a)) && !Before(a, a)
  {
    NamesAreOrdered(a.name, b.name);
    NamesAreOrdered(a.name, a.name);
  }

  lemma SameHead(one: seq<Row>, other: seq<Row>, values: Buckets)
    requires one != [] && other != []
    requires Lists(one, values) && Lists(other, values) && Ranked(one) && Ranked(other)
    ensures one[0] == other[0]
  {
    var i :| 0 <= i < |one| && one[i].name == other[0].name;
    var j :| 0 <= j < |other| && other[j].name == one[0].name;
    assert one[i] == other[0] && other[j] == one[0];
    Irreflexive(one[0], other[0]);
  }

  lemma ListsTail(rows: seq<Row>, values: Buckets)
    requires rows != [] && Lists(rows, values) && Ranked(rows)
    ensures Lists(rows[1..], values - {rows[0].name}) && Ranked(rows[1..])
  {
    var rest, tail := values - {rows[0].name}, rows[1..];
    forall k | 0 <= k < |tail| ensures tail[k].name in rest && rest[tail[k].name] == tail[k].count {
      assert tail[k] == rows[k + 1] && Before(rows[0], rows[k + 1]);
      Irreflexive(rows[0], rows[0]);
    }
    forall name | name in rest ensures exists k | 0 <= k < |tail| :: tail[k].name == name {
      var k :| 0 <= k < |rows| && rows[k].name == name;
      assert tail[k - 1] == rows[k];
    }
  }

  /** The rows of one table: the top of the ranking, and for a partition one row for everything else. */
  method RenderRanked(values: Buckets, total: u64, limit: nat, partition: bool)
    returns (rows: seq<Row>, other: Option<u64>, ghost hidden: seq<Row>)
    ensures Lists(rows + hidden, values) && Ranked(rows + hidden)
    ensures |rows| == if limit < |rows + hidden| then limit else |rows + hidden|
    ensures other.Some? ==> partition
    ensures partition && Total(values) == total ==>
      if SumOf(hidden, Count) == 0 then other == None else other == Some(SumOf(hidden, Count))
  {
    hide SumOf, Ranked, Lists, Total;
    var all := SortedRows(values);
    rows := all[..if limit < |all| then limit else |all|];
    hidden := all[|rows|..];
    assert all == rows + hidden;
    SumOfAppend(rows, hidden, Count);
    var shown: u64 := 0;
    SumOfNone(Count);
    assert rows[..0] == [];
    for k := 0 to |rows|
      invariant shown == Sat(SumOf(rows[..k], Count))
    {
      assert rows[..k + 1] == rows[..k] + [rows[k]];
      SumOfAppend(rows[..k], [rows[k]], Count);
      SumOfOne(rows[k], Count);
      shown := SaturatingAdd(shown, rows[k].count);
    }
    assert rows[..|rows|] == rows;
    other := if partition && shown < total then Some(total - shown) else None;
  }

  /**
   * The table of leaf symbols accounts for every sample: what it shows and its row for the others add up to the total.
   */
  method RenderSelf(profile: FoldedProfile, limit: nat) returns (rows: seq<Row>, other: Option<u64>)
    requires profile.Valid()
    ensures SumOf(rows, Count) + (if other.Some? then other.value else 0) == profile.totalSamples
  {
    hide SumOf, Ranked, Lists, Total, Represents;
    ghost var hidden;
    rows, other, hidden := RenderRanked(profile.selfSamples, profile.totalSamples, limit, true);
    ListedSum(rows + hidden, profile.selfSamples);
    SumOfAppend(rows, hidden, Count);
  }

  /** Any ranking of a map adds up to its total. */
  lemma {:induction false} ListedSum(rows: seq<Row>, values: Buckets)
    requires Lists(rows, values) && Ranked(rows)
    ensures SumOf(rows, Count) == Total(values)
  {
    hide Ranked, Lists, SumOf;
    EmptyListing(rows, values);
    if rows == [] {
      SumOfNone(Count);
    } else {
      ListsTail(rows, values);
      ListedSum(rows[1..], values - {rows[0].name});
      TotalRemove(values, rows[0].name);
      assert rows == [rows[0]] + rows[1..];
      SumOfAppend([rows[0]], rows[1..], Count);
      SumOfOne(rows[0], Count);
    }
  }
}
