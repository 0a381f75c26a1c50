/**
  How `dump_table` of client/mysqldump.c packs rows into extended INSERT statements.  A row is the text
  "(...)" built in `extended_row`, the pattern is `insert_pat` and the bound is `opt_net_buffer_length`.
*/
module Packing {

  /** The length that the loop books for a row. */
  function RowCost(row: string): nat {
    2 + |row|
  }

  function RowsCost(rows: seq<string>): nat {
    if rows == [] then 0 else RowsCost(rows[..|rows| - 1]) + RowCost(rows[|rows| - 1])
  }

  /** The tracked length of one statement. */
  function Cost(pattern: string, rows: seq<string>): nat {
    |pattern| + 4 + RowsCost(rows)
  }

  /** Rows with commas between them. */
  function Joined(rows: seq<string>): string
    requires rows != []
  {
    if |rows| == 1 then rows[0] else Joined(rows[..|rows| - 1]) + "," + rows[|rows| - 1]
  }

  /** A whole statement as it stands in the dump. */
  function Statement(pattern: string, rows: seq<string>): string
    requires rows != []
  {
    pattern + Joined(rows) + ";\n"
  }

  ghost predicate NoneEmpty(groups: seq<seq<string>>) {
    forall i :: 0 <= i < |groups| ==> groups[i] != []
  }

  function Printed(pattern: string, groups: seq<seq<string>>): string
    requires NoneEmpty(groups)
  {
    if groups == [] then ""
    else Printed(pattern, groups[..|groups| - 1]) + Statement(pattern, groups[|groups| - 1])
  }

  function Flat(groups: seq<seq<string>>): seq<string> {
    if groups == [] then [] else Flat(groups[..|groups| - 1]) + groups[|groups| - 1]
  }

  /** A statement may hold one row of any length, and several rows below the bound. */
  predicate Fits(pattern: string, bound: nat, rows: seq<string>) {
    rows != [] && (|rows| > 1 ==> Cost(pattern, rows) < bound)
  }

  /** A division of the rows into statements, in order, under the tracked cost bound. */
  ghost predicate Grouping(pattern: string, bound: nat, rows: seq<string>, groups: seq<seq<string>>) {
    && Flat(groups) == rows
    && forall i :: 0 <= i < |groups| ==> Fits(pattern, bound, groups[i])
  }

  /** No statement could also take the first row of the next one. */
  ghost predicate Full(pattern: string, bound: nat, groups: seq<seq<string>>) {
    forall i, j :: 0 <= i < j < |groups| && j == i + 1 && groups[j] != [] ==>
                     Cost(pattern, groups[i]) + RowCost(groups[j][0]) >= bound
  }

  // --- Lengths ---

  lemma {:induction false} JoinedLength(rows: seq<string>)
    requires rows != []
    ensures |Joined(rows)| + |rows| + 1 == RowsCost(rows)
  {
    if |rows| > 1 {
      JoinedLength(rows[..|rows| - 1]);
    } else {
      assert RowsCost(rows[..0]) == 0;
    }
  }

  /** The text of a statement is shorter than the length tracked for it. */
  lemma {:induction false} TextIsShorter(pattern: string, rows: seq<string>)
    requires rows != []
    ensures |Statement(pattern, rows)| + |rows| + 3 == Cost(pattern, rows)
  {
    JoinedLength(rows);
  }

  lemma {:induction false} RowsCostConcat(a: seq<string>, b: seq<string>)
    ensures RowsCost(a + b) == RowsCost(a) + RowsCost(b)
  {
    if b == [] {
      assert a + b == a;
    } else {
      assert (a + b)[..|a + b| - 1] == a + b[..|b| - 1];
      RowsCostConcat(a, b[..|b| - 1]);
    }
  }

  lemma {:induction false} FlatCons(groups: seq<seq<string>>)
    requires groups != []
    ensures Flat(groups) == groups[0] + Flat(groups[1..])
  {
    var n := |groups| - 1;
    if n == 0 {
      assert Flat(groups[..0]) == [] && groups[1..] == [];
    } else {
      FlatCons(groups[..n]);
      assert groups[..n][1..] == groups[1..][..n - 1];
    }
  }

  // --- No grouping uses fewer statements ---

  /** The groups without their first k rows. */
  function Drop(groups: seq<seq<string>>, k: nat): seq<seq<string>>
    decreases |groups|
  {
    if groups == [] || k == 0 then groups
    else if k >= |groups[0]| then Drop(groups[1..], k - |groups[0]|)
    else [groups[0][k..]] + groups[1..]
  }

  lemma {:induction false} DropIsGrouping(pattern: string, bound: nat, rows: seq<string>, groups: seq<seq<string>>, k: nat)
    requires Grouping(pattern, bound, rows, groups) && k <= |rows|
    ensures Grouping(pattern, bound, rows[k..], Drop(groups, k))
    ensures |Drop(groups, k)| <= |groups|
    decreases |groups|
  {
    if groups != [] && k > 0 {
      FlatCons(groups);
      var first, others := groups[0], groups[1..];
      if k >= |first| {
        assert Flat(others) == rows[|first|..];
        DropIsGrouping(pattern, bound, rows[|first|..], others, k - |first|);
        assert rows[|first|..][k - |first|..] == rows[k..];
      } else {
        var cut := [first[k..]] + others;
        FlatCons(cut);
        assert cut[1..] == others;
        assert rows[k..] == first[k..] + Flat(others);
        RowsCostConcat(first[..k], first[k..]);
        assert first == first[..k] + first[k..];
      }
    }
  }

  lemma {:induction false} Overfull(pattern: string, bound: nat, rows: seq<string>, next: string, longer: seq<string>)
    requires rows != [] && rows + [next] <= longer
    requires Cost(pattern, rows) + RowCost(next) >= bound
    ensures !Fits(pattern, bound, longer)
  {
    var more := longer[|rows| + 1..];
    assert longer == (rows + [next]) + more;
    RowsCostConcat(rows + [next], more);
    RowsCostConcat(rows, [next]);
    assert RowsCost([next]) == RowCost(next) by { assert [next][..0] == []; }
  }

  /** The first group of a full grouping is at least as long as that of any other grouping of the same rows. */
  lemma {:induction false} FirstIsLongest(pattern: string, bound: nat, rows: seq<string>,
                                          groups: seq<seq<string>>, other: seq<seq<string>>)
    requires Grouping(pattern, bound, rows, groups) && Full(pattern, bound, groups)
    requires Grouping(pattern, bound, rows, other) && other != [] && groups != []
    ensures |other[0]| <= |groups[0]|
  {
    FlatCons(groups);
    FlatCons(other);
    assert Fits(pattern, bound, groups[0]) && Fits(pattern, bound, other[0]);
    if |groups| > 1 {
      FlatCons(groups[1..]);
      assert Fits(pattern, bound, groups[1]);
      var mine, next := groups[0], groups[1][0];
      assert mine + [next] <= rows;
      assert |other[0]| > |mine| ==> other[0][..|mine| + 1] == rows[..|mine| + 1] == mine + [next];
      if |other[0]| > |mine| {
        Overfull(pattern, bound, mine, next, other[0]);
      }
    }
  }

  lemma {:induction false} FullIsLeast(pattern: string, bound: nat, rows: seq<string>,
                                       groups: seq<seq<string>>, other: seq<seq<string>>)
    requires Grouping(pattern, bound, rows, groups) && Full(pattern, bound, groups)
    requires Grouping(pattern, bound, rows, other)
    ensures |groups| <= |other|
    decreases |groups|
  {
    if groups != [] {
      FlatCons(groups);
      assert Fits(pattern, bound, groups[0]);
      assert other != [];
      FirstIsLongest(pattern, bound, rows, groups, other);
      FlatCons(other);
      var k, first := |groups[0]|, |other[0]|;
      assert Flat(other[1..]) == rows[first..];
      DropIsGrouping(pattern, bound, rows[first..], other[1..], k - first);
      assert rows[first..][k - first..] == rows[k..] == Flat(groups[1..]);
      FullTail(pattern, bound, groups);
      FullIsLeast(pattern, bound, rows[k..], groups[1..], Drop(other[1..], k - first));
    }
  }

  /** Every row once and in order, multi-row statements shorter than the bound, and as few statements as possible. */
  ghost predicate Best(pattern: string, bound: nat, rows: seq<string>, groups: seq<seq<string>>) {
    && Grouping(pattern, bound, rows, groups) && NoneEmpty(groups)
    && (forall i :: 0 <= i < |groups| && |groups[i]| > 1 ==> |Statement(pattern, groups[i])| < bound)
    && (forall other :: Grouping(pattern, bound, rows, other) ==> |groups| <= |other|)
  }

  lemma {:induction false} FullIsBest(pattern: string, bound: nat, rows: seq<string>, groups: seq<seq<string>>)
    requires Grouping(pattern, bound, rows, groups) && Full(pattern, bound, groups)
    ensures Best(pattern, bound, rows, groups)
  {
    assert NoneEmpty(groups) by {
      forall k | 0 <= k < |groups| ensures groups[k] != [] {
        assert Fits(pattern, bound, groups[k]);
      }
    }
    forall k | 0 <= k < |groups| && |groups[k]| > 1 ensures |Statement(pattern, groups[k])| < bound {
      assert Fits(pattern, bound, groups[k]);
      TextIsShorter(pattern, groups[k]);
    }
    forall other | Grouping(pattern, bound, rows, other) ensures |groups| <= |other| {
      FullIsLeast(pattern, bound, rows, groups, other);
    }
  }

  lemma {:induction false} FullTail(pattern: string, bound: nat, groups: seq<seq<string>>)
    requires Full(pattern, bound, groups) && groups != []
    ensures Full(pattern, bound, groups[1..])
  {
    forall i, j | 0 <= i < j < |groups[1..]| && j == i + 1 && groups[1..][j] != []
      ensures Cost(pattern, groups[1..][i]) + RowCost(groups[1..][j][0]) >= bound
    {
      var a, b := i + 1, j + 1;
      assert groups[a] == groups[1..][i] && groups[b] == groups[1..][j];
    }
  }

  // --- The loop ---

  /** The last statement of the dump is still open: its ";\n" comes with the next break or at the end. */
  ghost predicate Open(pattern: string, groups: seq<seq<string>>, text: string) {
    NoneEmpty(groups) && (if groups == [] then text == "" else text + ";\n" == Printed(pattern, groups))
  }

  lemma {:induction false} AppendText(pattern: string, groups: seq<seq<string>>, row: string, text: string)
    requires groups != [] && Open(pattern, groups, text)
    ensures var n := |groups| - 1;
            Open(pattern, groups[..n] + [groups[n] + [row]], text + "," + row)
  {
    var n := |groups| - 1;
    var last := groups[n];
    var longer := groups[..n] + [last + [row]];
    assert longer[..n] == groups[..n];
    assert (last + [row])[..|last|] == last;
    var before := Printed(pattern, groups[..n]) + pattern + Joined(last);
    assert text + ";\n" == before + ";\n";
    assert text == (text + ";\n")[..|text|] == before;
    assert Joined(last + [row]) == Joined(last) + "," + row;
    assert Printed(pattern, longer) == before + "," + row + ";\n";
  }

  lemma {:induction false} Append(pattern: string, bound: nat, groups: seq<seq<string>>, row: string)
    returns (longer: seq<seq<string>>)
    requires groups != [] && Full(pattern, bound, groups) && Grouping(pattern, bound, Flat(groups), groups)
    requires Cost(pattern, groups[|groups| - 1]) + RowCost(row) < bound
    ensures Full(pattern, bound, longer) && Grouping(pattern, bound, Flat(groups) + [row], longer)
    ensures var n := |groups| - 1;
            && longer == groups[..n] + [groups[n] + [row]]
            && Cost(pattern, longer[n]) == Cost(pattern, groups[n]) + RowCost(row)
  {
    var n := |groups| - 1;
    var last := groups[n];
    assert Fits(pattern, bound, last);
    longer := groups[..n] + [last + [row]];
    assert longer[..n] == groups[..n];
    assert (last + [row])[..|last|] == last;
    assert Flat(longer) == Flat(groups) + [row];
    assert last[0] == (last + [row])[0];
  }

  lemma {:induction false} Break(pattern: string, bound: nat, groups: seq<seq<string>>, row: string, text: string)
    returns (longer: seq<seq<string>>)
    requires Open(pattern, groups, text) && Full(pattern, bound, groups)
    requires Grouping(pattern, bound, Flat(groups), groups)
    requires groups != [] ==> Cost(pattern, groups[|groups| - 1]) + RowCost(row) >= bound
    ensures Open(pattern, longer, text + (if groups == [] then "" else ";\n") + pattern + row)
    ensures Full(pattern, bound, longer)
    ensures Grouping(pattern, bound, Flat(groups) + [row], longer)
    ensures longer != [] && Cost(pattern, longer[|longer| - 1]) == RowCost(row) + |pattern| + 4
  {
    longer := groups + [[row]];
    assert longer[..|groups|] == groups;
    assert [row][..0] == [];
    assert RowsCost([row]) == RowCost(row);
    assert Statement(pattern, [row]) == pattern + row + ";\n";
    assert Printed(pattern, longer) == Printed(pattern, groups) + (pattern + row + ";\n");
    var now := text + (if groups == [] then "" else ";\n") + pattern + row;
    assert now + ";\n" == Printed(pattern, longer);
  }

  /**
    The loop over the rows of a table.  The dump is a sequence of whole statements that hold every row once and in
    order; a statement with several rows is shorter than the bound; and no other order-preserving grouping under
    the same tracked cost bound has fewer statements.
  */
  method DumpRows(rows: seq<string>, pattern: string, bound: nat) returns (text: string)
    ensures exists groups :: Best(pattern, bound, rows, groups) && text == Printed(pattern, groups)
  {
    ghost var groups: seq<seq<string>> := [];
    text := "";
    var total := bound;  // force a break before the first row
    var rowBreak := false;
    var initLength := |pattern| + 4;
    var i := 0;
    while i < |rows|
      invariant i <= |rows|
      invariant Grouping(pattern, bound, rows[..i], groups) && Full(pattern, bound, groups)
      invariant Open(pattern, groups, text)
      invariant rowBreak <==> groups != []
      invariant total == if groups == [] then bound else Cost(pattern, groups[|groups| - 1])
    {
      var row := rows[i];
      var rowLength := 2 + |row|;
      assert rows[..i + 1] == rows[..i] + [row];
      if total + rowLength < bound {
        AppendText(pattern, groups, row, text);
        groups := Append(pattern, bound, groups, row);
        total := total + rowLength;
        text := text + "," + row;
      } else {
        groups := Break(pattern, bound, groups, row, text);
        text := text + (if rowBreak then ";\n" else "") + pattern + row;
        rowBreak := true;
        total := rowLength + initLength;
      }
      i := i + 1;
    }
    if rowBreak {
      text := text + ";\n";
    }
    assert rows[..i] == rows;
    FullIsBest(pattern, bound, rows, groups);
  }
}
