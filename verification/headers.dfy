/**
 * The header-row merge of utils.py: `ensure_headers` and
 * `append_row_with_headers`, on the list of first-row cell values (the
 * worksheet writes that mirror it are not modelled). A cell value is
 * `None` or a string.
 */
module Headers {
  import opened Wrappers

  /** Python's `list.insert(i, x)`: an index past the end appends. */
  function InsertAt<T>(s: seq<T>, i: nat, x: T): (r: seq<T>)
    ensures |r| == |s| + 1
    ensures multiset(r) == multiset(s) + multiset{x}
    ensures forall y :: y in s ==> y in r
    ensures x in r
  {
    var j := if i < |s| then i else |s|;
    assert s == s[..j] + s[j..];
    s[..j] + [x] + s[j..]
  }

  /** `any(current)`: some cell holds a non-empty string. */
  predicate AnyTruthy(cells: seq<Option<string>>) {
    exists k :: 0 <= k < |cells| && cells[k].Some? && cells[k].value != ""
  }

  /** The desired headers as cell values. */
  function AsCells(desired: seq<string>): (r: seq<Option<string>>)
    ensures |r| == |desired|
    ensures forall k :: 0 <= k < |r| ==> r[k] == Some(desired[k])
  {
    seq(|desired|, k requires 0 <= k < |desired| => Some(desired[k]))
  }

  /**
   * The loop of `ensure_headers` after the first `|desired|` steps: each
   * desired header not yet present is inserted at its own index in the
   * desired list.
   */
  function MergeHeaders(current: seq<Option<string>>, desired: seq<string>): (r: seq<Option<string>>)
    ensures |current| <= |r| <= |current| + |desired|
  {
    if desired == [] then current
    else
      var n := |desired| - 1;
      var cur := MergeHeaders(current, desired[..n]);
      if Some(desired[n]) in cur then cur else InsertAt(cur, n, Some(desired[n]))
  }

  /** `ensure_headers`: the desired headers on an empty first row, else the merge. */
  function EnsureHeadersSpec(current: seq<Option<string>>, desired: seq<string>): seq<Option<string>> {
    if AnyTruthy(current) then MergeHeaders(current, desired) else AsCells(desired)
  }

  /** The header row that `ensure_headers` leaves behind and returns. */
  method EnsureHeaders(current: seq<Option<string>>, desired: seq<string>) returns (headers: seq<Option<string>>)
    ensures headers == EnsureHeadersSpec(current, desired)
    ensures forall h :: h in desired ==> Some(h) in headers
    ensures !AnyTruthy(current) ==> headers == AsCells(desired)
  {
    if !AnyTruthy(current) {
      return AsCells(desired);
    }
    var cur := current;
    for i := 0 to |desired|
      invariant cur == MergeHeaders(current, desired[..i])
    {
      assert desired[..i + 1][..i] == desired[..i];
      if Some(desired[i]) !in cur {
        cur := InsertAt(cur, i, Some(desired[i]));
      }
    }
    assert desired[..|desired|] == desired;
    headers := cur;
    MergeHasDesired(current, desired);
  }

  /** `b` keeps the elements of `a` in their order, with others possibly in between. */
  ghost predicate SubsequenceOf<T>(a: seq<T>, b: seq<T>)
    decreases |b|
  {
    if a == [] then true
    else if b == [] then false
    else SubsequenceOf(a, b[1..]) || (a[0] == b[0] && SubsequenceOf(a[1..], b[1..]))
  }

  lemma {:induction false} SubsequenceOfSelf<T>(a: seq<T>)
    ensures SubsequenceOf(a, a)
    decreases |a|
  {
    if a != [] {
      SubsequenceOfSelf(a[1..]);
    }
  }

  /** Inserting one element anywhere keeps every subsequence. */
  lemma {:induction false} SubsequenceInsert<T>(a: seq<T>, b: seq<T>, j: nat, x: T)
    requires SubsequenceOf(a, b) && j <= |b|
    ensures SubsequenceOf(a, b[..j] + [x] + b[j..])
    decreases |b|
  {
    var b' := b[..j] + [x] + b[j..];
    if a == [] {
    } else if j == 0 {
      assert b'[1..] == b;
    } else {
      var c := b[1..][..j - 1] + [x] + b[1..][j - 1..];
      assert b'[0] == b[0] && b'[1..] == c;
      if SubsequenceOf(a, b[1..]) {
        SubsequenceInsert(a, b[1..], j - 1, x);
      } else {
        SubsequenceInsert(a[1..], b[1..], j - 1, x);
      }
    }
  }

  /** The merge keeps the existing headers in their relative order. */
  lemma {:induction false} MergeKeepsOrder(current: seq<Option<string>>, desired: seq<string>)
    ensures SubsequenceOf(current, MergeHeaders(current, desired))
  {
    if desired == [] {
      SubsequenceOfSelf(current);
    } else {
      var n := |desired| - 1;
      var cur := MergeHeaders(current, desired[..n]);
      MergeKeepsOrder(current, desired[..n]);
      if Some(desired[n]) !in cur {
        var j := if n < |cur| then n else |cur|;
        SubsequenceInsert(current, cur, j, Some(desired[n]));
      }
    }
  }

  /** Every desired header is present after the merge. */
  lemma {:induction false} MergeHasDesired(current: seq<Option<string>>, desired: seq<string>)
    ensures forall h :: h in desired ==> Some(h) in MergeHeaders(current, desired)
  {
    if desired != [] {
      var n := |desired| - 1;
      MergeHasDesired(current, desired[..n]);
      assert desired == desired[..n] + [desired[n]];
    }
  }

  /** The merge adds nothing but desired headers. */
  lemma {:induction false} MergeOnlyAddsDesired(current: seq<Option<string>>, desired: seq<string>)
    ensures forall x :: x in MergeHeaders(current, desired) ==> x in current || (x.Some? && x.value in desired)
  {
    if desired != [] {
      var n := |desired| - 1;
      MergeOnlyAddsDesired(current, desired[..n]);
      assert forall h :: h in desired[..n] ==> h in desired;
      var cur := MergeHeaders(current, desired[..n]);
      if Some(desired[n]) !in cur {
        var j := if n < |cur| then n else |cur|;
        assert cur == cur[..j] + cur[j..];
        assert forall x :: x in InsertAt(cur, n, Some(desired[n])) ==> x in cur || x == Some(desired[n]);
      }
    }
  }

  /**
   * Where the missing headers go: when none of the desired headers is in
   * the sheet yet and none repeats, the n-th desired header is inserted at
   * index n, so the desired headers lead in their own order and the old
   * header row follows.
   */
  lemma {:induction false} MergeInsertsAtDesiredIndex(current: seq<Option<string>>, desired: seq<string>)
    requires forall h :: h in desired ==> Some(h) !in current
    requires forall i, j :: 0 <= i < j < |desired| ==> desired[i] != desired[j]
    ensures MergeHeaders(current, desired) == AsCells(desired) + current
  {
    if desired != [] {
      var n := |desired| - 1;
      assert forall h :: h in desired[..n] ==> h in desired;
      MergeInsertsAtDesiredIndex(current, desired[..n]);
      var a := AsCells(desired[..n]);
      var cur := MergeHeaders(current, desired[..n]);
      var x := Some(desired[n]);
      assert x !in cur by {
        assert x !in current by { assert desired[n] in desired; }
        assert forall k :: 0 <= k < n ==> cur[k] != x;
      }
      assert MergeHeaders(current, desired) == InsertAt(cur, n, x);
      InsertAfterPrefix(a, current, x);
      AsCellsSnoc(desired);
    }
  }

  /** Inserting at the end of a prefix puts the value between the two parts. */
  lemma {:induction false} InsertAfterPrefix<T>(a: seq<T>, b: seq<T>, x: T)
    ensures InsertAt(a + b, |a|, x) == a + [x] + b
  {
    assert (a + b)[..|a|] == a && (a + b)[|a|..] == b;
  }

  lemma {:induction false} AsCellsSnoc(desired: seq<string>)
    requires desired != []
    ensures AsCells(desired[..|desired| - 1]) + [Some(desired[|desired| - 1])] == AsCells(desired)
  {
  }

  /**
   * The merge never duplicates a header: an existing value keeps its count,
   * and a value that was not there appears at most once.
   */
  lemma {:induction false} MergeNoDuplicates(current: seq<Option<string>>, desired: seq<string>)
    ensures forall x :: x in current ==> multiset(MergeHeaders(current, desired))[x] == multiset(current)[x]
    ensures forall x :: x !in current ==> multiset(MergeHeaders(current, desired))[x] <= 1
  {
    if desired != [] {
      var n := |desired| - 1;
      MergeNoDuplicates(current, desired[..n]);
      var cur := MergeHeaders(current, desired[..n]);
      var h := Some(desired[n]);
      if h !in cur {
        assert multiset(cur)[h] == 0;
        forall x | x in current
          ensures x != h
        {
          assert multiset(cur)[x] == multiset(current)[x] > 0;
        }
      }
    }
  }

  /** `row_data.get(h, "")` for one header cell. */
  function CellFor(rowData: map<string, string>, h: Option<string>): (v: string)
    ensures h.Some? && h.value in rowData ==> v == rowData[h.value]
    ensures h.None? || h.value !in rowData ==> v == ""
  {
    if h.Some? && h.value in rowData then rowData[h.value] else ""
  }

  /** The row `append_row_with_headers` appends: one value per header, in order. */
  function RowValues(headers: seq<Option<string>>, rowData: map<string, string>): (row: seq<string>)
    ensures |row| == |headers|
    ensures forall k :: 0 <= k < |row| ==> row[k] == CellFor(rowData, headers[k])
  {
    seq(|headers|, k requires 0 <= k < |headers| => CellFor(rowData, headers[k]))
  }

  /** `append_row_with_headers`: the merged headers and the row appended under them. */
  method AppendRowWithHeaders(current: seq<Option<string>>, desired: seq<string>, rowData: map<string, string>)
    returns (headers: seq<Option<string>>, row: seq<string>)
    ensures headers == EnsureHeadersSpec(current, desired)
    ensures row == RowValues(headers, rowData)
  {
    headers := EnsureHeaders(current, desired);
    row := RowValues(headers, rowData);
  }

  /** Every desired header with data gets that data in the appended row, in its own column. */
  lemma {:induction false} AppendedRowCarriesData(current: seq<Option<string>>, desired: seq<string>, rowData: map<string, string>, h: string)
    requires h in desired && h in rowData
    ensures var headers := EnsureHeadersSpec(current, desired);
      exists k :: 0 <= k < |headers| && headers[k] == Some(h) && RowValues(headers, rowData)[k] == rowData[h]
  {
    var headers := EnsureHeadersSpec(current, desired);
    if AnyTruthy(current) {
      MergeHasDesired(current, desired);
    }
    assert Some(h) in headers;
    var k :| 0 <= k < |headers| && headers[k] == Some(h);
    assert RowValues(headers, rowData)[k] == rowData[h];
  }
}
