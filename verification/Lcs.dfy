/** The longest common run of two token sequences, by a dynamic program that keeps two rows. */
module Lcs {

  predicate IsCommonRun<T(==)>(a: seq<T>, b: seq<T>, i: nat, j: nat, n: nat) {
    i + n <= |a| && j + n <= |b| && a[i..i + n] == b[j..j + n]
  }

  /** The length of the longest run that ends both in front of a[i] and in front of b[j]. */
  function Ending<T(==)>(a: seq<T>, b: seq<T>, i: nat, j: nat): (r: nat)
    requires i <= |a| && j <= |b|
    ensures r <= i && r <= j
  {
    if i == 0 || j == 0 || a[i - 1] != b[j - 1] then 0 else Ending(a, b, i - 1, j - 1) + 1
  }

  /** It is a common run, and every common run that ends there is at most as long. */
  lemma {:induction false} EndingIsLongest<T>(a: seq<T>, b: seq<T>, i: nat, j: nat, n: nat)
    requires i <= |a| && j <= |b| && n <= i && n <= j
    ensures a[i - n..i] == b[j - n..j] <==> n <= Ending(a, b, i, j)
  {
    if n > 0 {
      assert a[i - n..i] == a[i - n..i - 1] + [a[i - 1]] && b[j - n..j] == b[j - n..j - 1] + [b[j - 1]];
      assert a[i - n..i][n - 1] == a[i - 1] && b[j - n..j][n - 1] == b[j - 1];
      if a[i - 1] == b[j - 1] {
        EndingIsLongest(a, b, i - 1, j - 1, n - 1);
        assert a[i - n..i] == b[j - n..j] ==> a[i - n..i][..n - 1] == b[j - n..j][..n - 1];
      }
    }
  }

  lemma EndingOf<T>(a: seq<T>, b: seq<T>, i: nat, j: nat)
    requires 0 < i <= |a| && 0 < j <= |b|
    ensures Ending(a, b, i, j) == if a[i - 1] != b[j - 1] then 0 else Ending(a, b, i - 1, j - 1) + 1
  {
  }

  lemma NothingEndsAtTheBorder<T>(a: seq<T>, b: seq<T>)
    ensures forall j :: 0 <= j <= |b| ==> Ending(a, b, 0, j) == 0
    ensures forall i :: 0 <= i <= |a| ==> Ending(a, b, i, 0) == 0
  {
  }

  /** The program's row: what it holds for the prefix of length i of a. */
  predicate IsRow<T(==)>(a: seq<T>, b: seq<T>, i: nat, row: seq<nat>) {
    i <= |a| && |row| == |b| + 1 && forall j :: 0 <= j <= |b| ==> row[j] == Ending(a, b, i, j)
  }

  /** The inner loop: the next row, and the longest run so far. */
  method FillRow<T(==)>(a: seq<T>, b: seq<T>, i: nat, prevRow: array<nat>, currRow: array<nat>, longest: nat,
                        ghost ei0: nat, ghost ej0: nat)
    returns (maxLength: nat, ghost ei: nat, ghost ej: nat)
    requires 0 < i <= |a| && prevRow != currRow && currRow.Length == |b| + 1 && currRow[0] == 0
    requires IsRow(a, b, i - 1, prevRow[..])
    requires ei0 <= |a| && ej0 <= |b| && longest == Ending(a, b, ei0, ej0)
    modifies currRow
    ensures IsRow(a, b, i, currRow[..]) && longest <= maxLength
    ensures ei <= |a| && ej <= |b| && maxLength == Ending(a, b, ei, ej)
    ensures forall j :: 0 <= j <= |b| ==> Ending(a, b, i, j) <= maxLength
  {
    hide Ending;
    NothingEndsAtTheBorder(a, b);
    maxLength, ei, ej := longest, ei0, ej0;
    for j := 1 to |b| + 1
      invariant currRow[0] == 0 && longest <= maxLength
      invariant forall m :: 0 <= m < j ==> currRow[m] == Ending(a, b, i, m) <= maxLength
      invariant ei <= |a| && ej <= |b| && maxLength == Ending(a, b, ei, ej)
    {
      EndingOf(a, b, i, j);
      if a[i - 1] == b[j - 1] {
        if i == 1 || j == 1 {
          currRow[j] := 1;
        } else {
          currRow[j] := prevRow[j - 1] + 1;
        }
        if currRow[j] > maxLength {
          maxLength := currRow[j];
          ei, ej := i, j;
        }
      } else {
        currRow[j] := 0;
      }
    }
  }

  /** The result is the length of a common run, and no common run is longer. */
  method CommonLcs<T(==)>(a: seq<T>, b: seq<T>) returns (maxLength: nat)
    ensures exists i: nat, j: nat :: IsCommonRun(a, b, i, j, maxLength)
    ensures forall i: nat, j: nat, n: nat :: IsCommonRun(a, b, i, j, n) ==> n <= maxLength
  {
    if a == [] || b == [] {
      assert IsCommonRun(a, b, 0, 0, 0);
      return 0;
    }
    hide Ending;
    NothingEndsAtTheBorder(a, b);
    maxLength := 0;
    var prevRow := new nat[|b| + 1](_ => 0);
    var currRow := new nat[|b| + 1](_ => 0);
    ghost var ei: nat, ej: nat := 0, 0;
    for i := 1 to |a| + 1
      invariant IsRow(a, b, i - 1, prevRow[..]) && currRow[0] == 0
      invariant ei <= |a| && ej <= |b| && maxLength == Ending(a, b, ei, ej)
      invariant forall k, j :: 0 <= k < i && 0 <= j <= |b| ==> Ending(a, b, k, j) <= maxLength
    {
      maxLength, ei, ej := FillRow(a, b, i, prevRow, currRow, maxLength, ei, ej);
      forall j | 0 <= j <= |b| {
        prevRow[j] := currRow[j];
      }
    }
    LongestEndingIsLongest(a, b, ei, ej);
  }

  /** The longest of all endings is the longest of all common runs. */
  lemma LongestEndingIsLongest<T>(a: seq<T>, b: seq<T>, ei: nat, ej: nat)
    requires ei <= |a| && ej <= |b|
    requires forall i, j :: 0 <= i <= |a| && 0 <= j <= |b| ==> Ending(a, b, i, j) <= Ending(a, b, ei, ej)
    ensures var n := Ending(a, b, ei, ej); IsCommonRun(a, b, ei - n, ej - n, n)
    ensures forall i: nat, j: nat, n: nat :: IsCommonRun(a, b, i, j, n) ==> n <= Ending(a, b, ei, ej)
  {
    EndingIsLongest(a, b, ei, ej, Ending(a, b, ei, ej));
    forall i: nat, j: nat, n: nat | IsCommonRun(a, b, i, j, n)
      ensures n <= Ending(a, b, ei, ej)
    {
      EndingIsLongest(a, b, i + n, j + n, n);
    }
  }
}
