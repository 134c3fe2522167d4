/**
 * Swap-remove on Go slices (services/connection-service/util/slice.go).
 *
 * A Go slice `*[]T` is a `Slice` object: a backing array and a length. Removal
 * at an index moves the last element into the hole, overwrites the vacated last
 * slot with the zero value of `T` and shortens the slice by one, so that the
 * order of the remaining elements is not preserved.
 */
module SliceUtil {
  import opened Wrappers

  /** The error value `RemovalError{msg}` of the source. */
  datatype RemovalError = RemovalError(msg: string)

  const ElementNotFound: string := "Element not found"
  const IndexBelowZero: string := "Index is less than 0"

  function Digit(d: nat): (c: char)
    requires d < 10
    ensures '0' <= c <= '9' && c as int - '0' as int == d
  {
    (('0' as int) + d) as char
  }

  /** `%d` formatting of a natural number. */
  function DecimalString(n: nat): (s: string)
    ensures |s| > 0
    ensures forall i :: 0 <= i < |s| ==> '0' <= s[i] <= '9'
    decreases n
  {
    if n < 10 then [Digit(n)] else DecimalString(n / 10) + [Digit(n % 10)]
  }

  /** The number a string of decimal digits denotes: the inverse of `DecimalString`. */
  function DecimalValue(s: string): nat
    requires forall i :: 0 <= i < |s| ==> '0' <= s[i] <= '9'
  {
    if s == [] then 0 else 10 * DecimalValue(s[..|s| - 1]) + (s[|s| - 1] as int - '0' as int)
  }

  /** Formatting an index into an error message loses nothing: the digits read back as the number. */
  lemma {:induction false} DecimalRoundTrip(n: nat)
    ensures DecimalValue(DecimalString(n)) == n
  {
    if n >= 10 {
      DecimalRoundTrip(n / 10);
      var s := DecimalString(n);
      assert s[..|s| - 1] == DecimalString(n / 10);
    }
  }

  /** The message `fmt.Sprintf("Index: %d is greater than slice length: %d", idx, length)`. */
  function IndexTooLarge(idx: nat, length: nat): string
  {
    "Index: " + DecimalString(idx) + " is greater than slice length: " + DecimalString(length)
  }

  /** The contents of a slice after a successful swap-remove at `idx`. */
  function SwapRemoved<T>(s: seq<T>, idx: nat): (r: seq<T>)
    requires idx < |s|
    ensures |r| == |s| - 1
    ensures idx < |r| ==> r[idx] == s[|s| - 1]
    ensures forall j :: 0 <= j < |r| && j != idx ==> r[j] == s[j]
  {
    if idx == |s| - 1 then s[..|s| - 1] else s[..|s| - 1][idx := s[|s| - 1]]
  }

  /** Swap-removal takes away exactly one copy of the removed element and keeps everything else. */
  lemma SwapRemovedMultiset<T>(s: seq<T>, idx: nat)
    requires idx < |s|
    ensures multiset(SwapRemoved(s, idx)) == multiset(s) - multiset{s[idx]}
  {
    var n := |s| - 1;
    if idx == n {
      assert s == s[..n] + [s[n]];
    } else {
      assert s == s[..idx] + [s[idx]] + s[idx + 1..n] + [s[n]];
      assert SwapRemoved(s, idx) == s[..idx] + [s[n]] + s[idx + 1..n];
    }
  }

  /** What `RemoveSwap` does to the contents of the slice. */
  function RemoveSwapSpec<T>(s: seq<T>, idx: int): (r: Result<seq<T>, RemovalError>)
    ensures r.Failure? <==> idx < 0 || idx >= |s|
    ensures idx < 0 ==> r == Failure(RemovalError(IndexBelowZero))
    ensures 0 <= |s| <= idx ==> r == Failure(RemovalError(IndexTooLarge(idx, |s|)))
    ensures r.Success? ==> r.value == SwapRemoved(s, idx)
  {
    if idx < 0 then Failure(RemovalError(IndexBelowZero))
    else if idx >= |s| then Failure(RemovalError(IndexTooLarge(idx, |s|)))
    else Success(SwapRemoved(s, idx))
  }

  /** The first index holding `x`, scanning from index 0. */
  function IndexOf<T(==)>(s: seq<T>, x: T): (r: Option<nat>)
    ensures r.None? <==> x !in s
    ensures r.Some? ==> r.value < |s| && s[r.value] == x && x !in s[..r.value]
  {
    if |s| == 0 then None
    else if s[0] == x then Some(0)
    else match IndexOf(s[1..], x)
      case None => None
      case Some(i) => assert s[..i + 1] == [s[0]] + s[1..][..i]; Some(i + 1)
  }

  /** What `RemoveSwapElem` does to the contents of the slice. */
  function RemoveSwapElemSpec<T(==)>(s: seq<T>, elem: T): (r: Result<seq<T>, RemovalError>)
    ensures r.Failure? <==> elem !in s
    ensures r.Failure? ==> r.error == RemovalError(ElementNotFound)
    ensures r.Success? ==> |r.value| == |s| - 1
  {
    match IndexOf(s, elem)
    case None => Failure(RemovalError(ElementNotFound))
    case Some(i) => RemoveSwapSpec(s, i)
  }

  /** A successful removal of `elem` takes away exactly one copy of it and keeps everything else. */
  lemma RemoveSwapElemMultiset<T>(s: seq<T>, elem: T)
    requires elem in s
    ensures multiset(RemoveSwapElemSpec(s, elem).value) == multiset(s) - multiset{elem}
  {
    SwapRemovedMultiset(s, IndexOf(s, elem).value);
  }

  /** The slice header `*[]T`: `data` is the backing array, `len` the slice length. */
  class Slice<T> {
    var data: array<T>
    var len: nat

    ghost predicate Valid()
      reads this
    {
      len <= data.Length
    }

    function Contents(): seq<T>
      reads this, data
      requires Valid()
    {
      data[..len]
    }

    constructor (backing: array<T>, length: nat)
      requires length <= backing.Length
      ensures Valid() && data == backing && len == length
    {
      data := backing;
      len := length;
    }
  }

  /**
   * `RemoveSwap(arr, idx)`: out-of-range indexes fail and change nothing; otherwise
   * the last element moves to `idx`, the vacated last slot of the backing array is
   * overwritten with `zero` and the slice shrinks by one.
   */
  method RemoveSwap<T>(arr: Slice<T>, idx: int, zero: T) returns (err: Option<RemovalError>)
    requires arr.Valid()
    modifies arr, arr.data
    ensures arr.Valid() && arr.data == old(arr.data)
    ensures RemoveSwapSpec(old(arr.Contents()), idx).Failure? ==> err == Some(RemoveSwapSpec(old(arr.Contents()), idx).error)
    ensures err.Some? ==> unchanged(arr) && arr.data[..] == old(arr.data[..])
    ensures RemoveSwapSpec(old(arr.Contents()), idx).Success? ==> err == None && arr.Contents() == RemoveSwapSpec(old(arr.Contents()), idx).value
    ensures err == None ==> arr.data[arr.len] == zero
    ensures err == None ==> forall j :: arr.len < j < arr.data.Length ==> arr.data[j] == old(arr.data[j])
  {
    ghost var s0 := arr.Contents();
    var length := arr.len;
    if idx < 0 {
      return Some(RemovalError(IndexBelowZero));
    } else if idx >= length {
      return Some(RemovalError(IndexTooLarge(idx, length)));
    }
    var last := arr.data[length - 1];
    if idx != length - 1 {
      arr.data[idx] := last;
    }
    arr.data[length - 1] := zero;
    arr.len := length - 1;
    assert arr.Contents() == SwapRemoved(s0, idx) by {
      forall j | 0 <= j < length - 1 ensures arr.data[j] == SwapRemoved(s0, idx)[j] { }
    }
    return None;
  }

  /**
   * `RemoveSwapElem(arr, elem)`: scans from index 0 for the first element equal to
   * `elem` and swap-removes it; fails with "Element not found" and changes nothing
   * when there is none.
   */
  method RemoveSwapElem<T(==)>(arr: Slice<T>, elem: T, zero: T) returns (err: Option<RemovalError>)
    requires arr.Valid()
    modifies arr, arr.data
    ensures arr.Valid() && arr.data == old(arr.data)
    ensures RemoveSwapElemSpec(old(arr.Contents()), elem).Failure? ==> err == Some(RemoveSwapElemSpec(old(arr.Contents()), elem).error)
    ensures err.Some? ==> unchanged(arr) && arr.data[..] == old(arr.data[..])
    ensures RemoveSwapElemSpec(old(arr.Contents()), elem).Success? ==> err == None && arr.Contents() == RemoveSwapElemSpec(old(arr.Contents()), elem).value
    ensures err == None ==> arr.data[arr.len] == zero
    ensures err == None ==> forall j :: arr.len < j < arr.data.Length ==> arr.data[j] == old(arr.data[j])
  {
    var i := 0;
    while i < arr.len
      invariant 0 <= i <= arr.len
      invariant elem !in arr.data[..i]
    {
      if arr.data[i] == elem {
        ghost var s := arr.Contents();
        assert s[..i] == arr.data[..i];
        err := RemoveSwap(arr, i, zero);
        return;
      }
      assert arr.data[..i + 1] == arr.data[..i] + [arr.data[i]];
      i := i + 1;
    }
    assert arr.Contents() == arr.data[..i];
    return Some(RemovalError(ElementNotFound));
  }
}
