/**
 Underscore's search and duplicate removal (docs/_static/underscore.js): the fast paths for
 sorted arrays and the linear ones. Values are numbers with `<` and `===`, including NaN,
 which is neither below nor equal to anything, itself included.
 */
module Sorted {

  datatype Value = Num(n: real) | NaN

  predicate Less(a: Value, b: Value) {
    a.Num? && b.Num? && a.n < b.n
  }

  predicate StrictEq(a: Value, b: Value) {
    a.Num? && a == b
  }

  /** Equal for `indexOf`, which finds NaN by a predicate. */
  predicate Same(a: Value, b: Value) {
    a == b
  }

  /** A sorted array of totally ordered values. */
  ghost predicate IsSorted(a: seq<Value>) {
    && (forall i :: 0 <= i < |a| ==> a[i].Num?)
    && (forall i, j :: 0 <= i <= j < |a| ==> a[i].n <= a[j].n)
  }

  method SortedIndex(a: seq<Value>, obj: Value) returns (low: nat)
    ensures low <= |a|
    ensures IsSorted(a) && obj.Num? ==>
      (forall i :: 0 <= i < low ==> Less(a[i], obj)) && (forall i :: low <= i < |a| ==> !Less(a[i], obj))
    ensures obj.NaN? ==> low == 0
  {
    low := 0;
    var high := |a|;
    while low < high
      invariant 0 <= low <= high <= |a|
      invariant IsSorted(a) && obj.Num? ==> forall i :: 0 <= i < low ==> Less(a[i], obj)
      invariant IsSorted(a) && obj.Num? ==> forall i :: high <= i < |a| ==> !Less(a[i], obj)
      invariant obj.NaN? ==> low == 0
    {
      var mid := (low + high) / 2;
      if Less(a[mid], obj) { low := mid + 1; } else { high := mid; }
    }
  }

  /** The third argument of indexOf: absent, a position to start from, or "is sorted". */
  datatype From = Absent | At(idx: int) | Flag(isSorted: bool)

  datatype Direction = Forward | Backward

  /** The first and the one-past-last index the caller confines the search to. */
  function Start(dir: Direction, length: nat, from: From): int {
    if dir.Forward? && from.At? then
      (if from.idx >= 0 then from.idx else if from.idx + length > 0 then from.idx + length else 0)
    else 0
  }

  function End(dir: Direction, length: nat, from: From): int {
    if dir.Backward? && from.At? then
      (if from.idx >= 0 then (if from.idx + 1 < length then from.idx + 1 else length) else from.idx + length + 1)
    else length
  }

  /** The position of the occurrence nearest to where the search starts. */
  ghost predicate IsFirstIn(a: seq<Value>, item: Value, lo: int, hi: int, r: int) {
    if r == -1 then forall k :: 0 <= k < |a| && lo <= k < hi ==> !Same(a[k], item)
    else 0 <= r < |a| && lo <= r < hi && Same(a[r], item)
         && forall k :: 0 <= k < r && lo <= k ==> !Same(a[k], item)
  }

  ghost predicate IsLastIn(a: seq<Value>, item: Value, lo: int, hi: int, r: int) {
    if r == -1 then forall k :: 0 <= k < |a| && lo <= k < hi ==> !Same(a[k], item)
    else 0 <= r < |a| && lo <= r < hi && Same(a[r], item)
         && forall k :: r < k < |a| && k < hi ==> !Same(a[k], item)
  }

  /** findIndex and findLastIndex of NaN on `slice.call(array, lo, hi)`; the result counts from
      the start of the slice. */
  method FindNaN(dir: Direction, a: seq<Value>) returns (r: int)
    ensures dir.Forward? ==> IsFirstIn(a, NaN, 0, |a|, r)
    ensures dir.Backward? ==> IsLastIn(a, NaN, 0, |a|, r)
  {
    if dir.Forward? {
      r := 0;
      while r < |a|
        invariant 0 <= r <= |a| && forall k :: 0 <= k < r ==> !Same(a[k], NaN)
      {
        if a[r].NaN? { return; }
        r := r + 1;
      }
    } else {
      r := |a| - 1;
      while 0 <= r
        invariant -1 <= r < |a| && forall k :: r < k < |a| ==> !Same(a[k], NaN)
      {
        if a[r].NaN? { return; }
        r := r - 1;
      }
    }
    r := -1;
  }

  /** JavaScript's slice on an array of this length, with these bounds. */
  function Slice(a: seq<Value>, lo: int, hi: int): seq<Value> {
    var l := if lo < 0 then (if lo + |a| < 0 then 0 else lo + |a|) else if lo > |a| then |a| else lo;
    var h := if hi < 0 then (if hi + |a| < 0 then 0 else hi + |a|) else if hi > |a| then |a| else hi;
    if l < h then a[l..h] else []
  }

  /** The functions made by createIndexFinder: `indexOf` is Forward with the sorted search,
      `lastIndexOf` is Backward without it. */
  method IndexFinder(dir: Direction, a: seq<Value>, item: Value, from: From) returns (r: int)
    ensures dir.Forward? && !(from == Flag(true) && !IsSorted(a)) ==>
      IsFirstIn(a, item, Start(dir, |a|, from), |a|, r)
    ensures dir.Backward? ==> IsLastIn(a, item, 0, Searched(|a|, item, from), r)
    ensures r == -1 || (0 <= r < |a| && Same(a[r], item))
  {
    var i, length := 0, |a|;
    if from.At? {
      if dir.Forward? {
        i := if from.idx >= 0 then from.idx else if from.idx + length > i then from.idx + length else i;
      } else {
        length := if from.idx >= 0 then (if from.idx + 1 < length then from.idx + 1 else length)
                  else from.idx + length + 1;
      }
    } else if dir.Forward? && from == Flag(true) && length != 0 {
      var at := SortedIndex(a, item);
      return if at < |a| && StrictEq(a[at], item) then at else -1;
    }
    if item.NaN? {
      r := FindNaNBetween(dir, a, i, length);
    } else {
      r := Scan(dir, a, item, i, length);
    }
  }

  method FindNaNBetween(dir: Direction, a: seq<Value>, i: nat, length: int) returns (r: int)
    requires length <= |a| && (dir.Forward? ==> length == |a|) && (dir.Backward? ==> i == 0)
    ensures dir.Forward? ==> IsFirstIn(a, NaN, i, |a|, r)
    ensures dir.Backward? ==> IsLastIn(a, NaN, 0, if length < 0 then length + |a| else length, r)
  {
    var slice := Slice(a, i, length);
    var k := FindNaN(dir, slice);
    assert forall j :: 0 <= j < |slice| ==> slice[j] == a[i + j];
    r := if k >= 0 then k + i else -1;
    if r == -1 && slice != [] {
      forall j | i <= j < i + |slice| ensures !Same(a[j], NaN) {
        assert slice[j - i] == a[j];
      }
    } else if dir.Forward? && r != -1 {
      forall j | i <= j < r ensures !Same(a[j], NaN) {
        assert slice[j - i] == a[j];
      }
    }
  }

  method Scan(dir: Direction, a: seq<Value>, item: Value, i: nat, length: int) returns (r: int)
    requires item.Num? && length <= |a| && (dir.Forward? ==> length == |a|)
    ensures dir.Forward? ==> IsFirstIn(a, item, i, |a|, r)
    ensures dir.Backward? ==> IsLastIn(a, item, 0, length, r)
  {
    r := if dir.Forward? then i else length - 1;
    while 0 <= r < length
      invariant dir.Forward? ==> i <= r && forall k :: i <= k < r && k < |a| ==> !Same(a[k], item)
      invariant dir.Backward? ==> r < length && forall k :: r < k < length && 0 <= k ==> !Same(a[k], item)
      decreases if dir.Forward? then length - r else r
    {
      if StrictEq(a[r], item) { return; }
      r := if dir.Forward? then r + 1 else r - 1;
    }
    r := -1;
  }

  /** Where lastIndexOf stops looking. A negative end is handed to slice, which counts it from
      the end of the array, but only when NaN is looked for. */
  function Searched(length: nat, item: Value, from: From): int {
    var end := End(Backward, length, from);
    if item.NaN? && end < 0 then end + length else end
  }

  /** The answer is unique, so two methods that give it agree. */
  lemma FirstInIsUnique(a: seq<Value>, item: Value, lo: int, hi: int, r: int, r': int)
    requires IsFirstIn(a, item, lo, hi, r) && IsFirstIn(a, item, lo, hi, r')
    ensures r == r'
  {
    if r != -1 { assert Same(a[r], item); }
    if r' != -1 { assert Same(a[r'], item); }
  }

  /** On a sorted array the binary search gives the same index as the scan, for every item. */
  method IndexOfBothWays(a: seq<Value>, item: Value) returns (fast: int, slow: int)
    requires IsSorted(a)
    ensures fast == slow
    ensures IsFirstIn(a, item, 0, |a|, slow)
  {
    fast := IndexFinder(Forward, a, item, Flag(true));
    slow := IndexFinder(Forward, a, item, Absent);
    FirstInIsUnique(a, item, 0, |a|, fast, slow);
  }

  /** Position k is among those the caller asked for: from the given one on, or up to it; a negative
      position counts from the end of the array. */
  predicate Asked(dir: Direction, length: nat, from: From, k: nat) {
    from.At? ==>
      var pos := if from.idx >= 0 then k else k - length;
      if dir.Forward? then from.idx <= pos else pos <= from.idx
  }

  /** The occurrence that is asked for: the first, or the last, or -1 if there is none. */
  ghost predicate Found(dir: Direction, a: seq<Value>, item: Value, from: From, r: int) {
    if r == -1 then forall k: nat :: k < |a| && Asked(dir, |a|, from, k) ==> !Same(a[k], item)
    else
      && 0 <= r < |a| && Asked(dir, |a|, from, r) && Same(a[r], item)
      && forall k: nat :: k < |a| && Asked(dir, |a|, from, k) && Same(a[k], item) ==>
           if dir.Forward? then r <= k else k <= r
  }

  lemma AskedIsRange(dir: Direction, length: nat, from: From, k: nat)
    requires k < length
    ensures Asked(dir, length, from, k) <==> Start(dir, length, from) <= k < End(dir, length, from)
  {
  }

  /** The exported indexOf. */
  method IndexOf(a: seq<Value>, item: Value, from: From) returns (r: int)
    ensures !(from == Flag(true) && !IsSorted(a)) ==> Found(Forward, a, item, from, r)
  {
    r := IndexFinder(Forward, a, item, from);
    forall k: nat | k < |a|
      ensures Asked(Forward, |a|, from, k) <==> Start(Forward, |a|, from) <= k < End(Forward, |a|, from)
    {
      AskedIsRange(Forward, |a|, from, k);
    }
  }

  /** The exported lastIndexOf. It keeps its promise, to search no further than the given
      position, except in one family of calls: for NaN, from a position more than one before
      the start of the array, in an array with a NaN early enough. */
  method LastIndexOf(a: seq<Value>, item: Value, from: From) returns (r: int)
    ensures Found(Backward, a, item, from, r) <==>
      !(item.NaN? && from.At? && from.idx + |a| + 1 < 0
        && exists k :: 0 <= k < |a| && k < from.idx + 2 * |a| + 1 && a[k].NaN?)
    ensures item.NaN? && from.At? && from.idx + |a| + 1 < 0 ==> IsLastIn(a, NaN, 0, from.idx + 2 * |a| + 1, r)
  {
    r := IndexFinder(Backward, a, item, from);
    forall k: nat | k < |a|
      ensures Asked(Backward, |a|, from, k) <==> Start(Backward, |a|, from) <= k < End(Backward, |a|, from)
    {
      AskedIsRange(Backward, |a|, from, k);
    }
  }

  /** The last NaN that lastIndexOf finds need not be among the positions asked for. */
  lemma LastIndexOfFindsTooMuch(r: int)
    requires IsLastIn([NaN, Num(1.0)], NaN, 0, -4 + 2 * 2 + 1, r)
    ensures r == 0 && !Asked(Backward, 2, At(-4), 0)
  {
    var a := [NaN, Num(1.0)];
    assert a[0] == NaN && Same(a[0], NaN);
  }

  // ---------------------------------------------------------------- uniq

  /** The elements that did not occur before. */
  function Firsts(a: seq<Value>): seq<Value> {
    if a == [] then []
    else
      var m := |a| - 1;
      Firsts(a[..m]) + if a[m] in a[..m] then [] else [a[m]]
  }

  /** The elements that differ from the one before. */
  function Changes(a: seq<Value>): seq<Value> {
    if a == [] then []
    else
      var m := |a| - 1;
      Changes(a[..m]) + if m > 0 && StrictEq(a[m - 1], a[m]) then [] else [a[m]]
  }

  method Contains(a: seq<Value>, item: Value) returns (found: bool)
    ensures found <==> item in a
  {
    var r := IndexFinder(Forward, a, item, At(0));
    found := r >= 0;
  }

  /** uniq without an iteratee. */
  method Uniq(a: seq<Value>, isSorted: bool) returns (result: seq<Value>)
    ensures result == if isSorted then Changes(a) else Firsts(a)
  {
    result := [];
    var seen: Value := NaN;
    for i := 0 to |a|
      invariant result == if isSorted then Changes(a[..i]) else Firsts(a[..i])
      invariant isSorted && 0 < i ==> seen == a[i - 1]
    {
      var value := a[i];
      assert a[..i + 1][..i] == a[..i];
      if isSorted {
        if i == 0 || !StrictEq(seen, value) { result := result + [value]; }
        seen := value;
      } else {
        FirstsMember(a[..i], value);
        var found := Contains(result, value);
        if !found { result := result + [value]; }
      }
    }
    assert a[..|a|] == a;
  }

  lemma {:induction false} FirstsMember(a: seq<Value>, x: Value)
    ensures x in Firsts(a) <==> x in a
  {
    if a != [] { FirstsMember(a[..|a| - 1], x); }
  }

  /** The linear result has every value of the array exactly once. */
  lemma {:induction false} FirstsAreDistinct(a: seq<Value>)
    ensures forall i, j :: 0 <= i < j < |Firsts(a)| ==> Firsts(a)[i] != Firsts(a)[j]
    ensures forall x :: x in Firsts(a) <==> x in a
  {
    if a != [] {
      FirstsAreDistinct(a[..|a| - 1]);
    }
    forall x ensures x in Firsts(a) <==> x in a { FirstsMember(a, x); }
  }

  /** The position of the first occurrence. */
  function FirstAt(a: seq<Value>, x: Value): (k: nat)
    requires x in a
    ensures k < |a| && a[k] == x && x !in a[..k]
  {
    var m := |a| - 1;
    if x in a[..m] then
      assert a[..m][..FirstAt(a[..m], x)] == a[..FirstAt(a[..m], x)];
      FirstAt(a[..m], x)
    else m
  }

  /** And in the order of their first occurrences. */
  lemma {:induction false} FirstsInOrder(a: seq<Value>, i: nat, j: nat)
    requires i < j < |Firsts(a)|
    ensures Firsts(a)[i] in a && Firsts(a)[j] in a && FirstAt(a, Firsts(a)[i]) < FirstAt(a, Firsts(a)[j])
  {
    var m := |a| - 1;
    var front := Firsts(a[..m]);
    FirstsMember(a[..m], Firsts(a)[i]);
    FirstsMember(a[..m], Firsts(a)[j]);
    assert a == a[..m] + [a[m]];
    if j < |front| {
      FirstsInOrder(a[..m], i, j);
    } else {
      assert Firsts(a)[j] == a[m] && a[m] !in a[..m];
    }
  }

  /** Every repeated value stands next to an equal one; in particular there is no second NaN. */
  ghost predicate RepeatsAdjoin(a: seq<Value>) {
    forall i :: 0 < i < |a| && a[i] in a[..i] ==> StrictEq(a[i - 1], a[i])
  }

  lemma LastRepeat(a: seq<Value>)
    requires a != []
    ensures var m := |a| - 1;
      RepeatsAdjoin(a) <==> RepeatsAdjoin(a[..m]) && (0 < m && a[m] in a[..m] ==> StrictEq(a[m - 1], a[m]))
  {
    var m := |a| - 1;
    assert forall i :: 0 <= i < m ==> a[..m][..i] == a[..i];
  }

  lemma {:induction false} ChangesVsFirsts(a: seq<Value>)
    ensures |Firsts(a)| <= |Changes(a)|
    ensures |Firsts(a)| == |Changes(a)| <==> RepeatsAdjoin(a)
    ensures RepeatsAdjoin(a) ==> Firsts(a) == Changes(a)
  {
    if a != [] {
      var m := |a| - 1;
      ChangesVsFirsts(a[..m]);
      if m > 0 && StrictEq(a[m - 1], a[m]) { assert a[m] == a[..m][m - 1]; }
      LastRepeat(a);
    }
  }

  /** The fast path of uniq gives the linear result exactly on the arrays whose repeats adjoin;
      sorted arrays are among them. */
  lemma UniqFastIffRepeatsAdjoin(a: seq<Value>)
    ensures Changes(a) == Firsts(a) <==> RepeatsAdjoin(a)
    ensures IsSorted(a) ==> RepeatsAdjoin(a)
  {
    ChangesVsFirsts(a);
    if IsSorted(a) {
      forall i | 0 < i < |a| && a[i] in a[..i] ensures StrictEq(a[i - 1], a[i]) {
        var k :| 0 <= k < i && a[k] == a[i];
      }
    }
  }

  /** Two NaNs: the fast path keeps both. */
  lemma UniqKeepsBothNaNs()
    ensures Firsts([NaN, NaN]) == [NaN] && Changes([NaN, NaN]) == [NaN, NaN]
  {
    assert [NaN, NaN][..1] == [NaN] && [NaN][..0] == [];
  }
}
