/**
 * The reveal pattern shared by the chapters: a cursor over a fixed table
 * that one click advances by exactly one until it reaches the table's
 * length, and a set of ids that interaction only ever grows.
 */
module Reveal {

  datatype Option<T> = None | Some(value: T)

  /** One accepted-or-ignored click on a counter cursor over `length` items. */
  function Advance(cursor: nat, length: nat): nat
  {
    if cursor < length then cursor + 1 else cursor
  }

  /** The cursor after `k` clicks starting from `cursor`. */
  function Clicks(cursor: nat, k: nat, length: nat): nat
    decreases k
  {
    if k == 0 then cursor else Clicks(Advance(cursor, length), k - 1, length)
  }

  function Min(a: nat, b: nat): nat { if a <= b then a else b }

  /**
   * From a cursor within the table, `k` clicks reach exactly
   * min(cursor + k, length): every click below the end counts once,
   * clicks at the end change nothing.
   */
  lemma {:induction false} ClicksReach(cursor: nat, k: nat, length: nat)
    requires cursor <= length
    ensures Clicks(cursor, k, length) == Min(cursor + k, length)
    decreases k
  {
    if k > 0 {
      ClicksReach(Advance(cursor, length), k - 1, length);
    }
  }

  /** Clicks never move a cursor backwards and never past the end. */
  lemma {:induction false} ClicksMonotone(cursor: nat, k: nat, length: nat)
    requires cursor <= length
    ensures cursor <= Clicks(cursor, k, length) <= length
  {
    ClicksReach(cursor, k, length);
  }

  /** Progress dot `i` of a cursor-driven reveal is lit iff item `i` was already revealed. */
  predicate DotLit(i: nat, cursor: nat)
  {
    i < cursor
  }

  /** The number of lit dots among the first `n` equals the cursor, capped at `n`. */
  function LitCount(n: nat, cursor: nat): (c: nat)
    ensures c == Min(cursor, n)
    ensures c <= n
  {
    if n == 0 then 0 else LitCount(n - 1, cursor) + (if DotLit(n - 1, cursor) then 1 else 0)
  }

  /** Adding one id to a reveal set: the set only grows and a repeat changes nothing. */
  function AddId(ids: set<int>, id: int): (r: set<int>)
    ensures ids <= r && id in r
    ensures r - ids <= {id}
    ensures id in ids ==> r == ids
    ensures id !in ids ==> |r| == |ids| + 1
  {
    ids + {id}
  }

  /** The ids lo .. lo+n-1. */
  function Interval(lo: int, n: nat): (r: set<int>)
    ensures forall i :: i in r <==> lo <= i < lo + n
    ensures |r| == n
  {
    if n == 0 then {} else Interval(lo, n - 1) + {lo + n - 1}
  }

  /** The ids 0 .. n-1. */
  function Range(n: nat): (r: set<int>)
    ensures forall i :: i in r <==> 0 <= i < n
    ensures |r| == n
  {
    Interval(0, n)
  }

  /** A sub-set of a finite universe is complete exactly when its size reaches the universe's. */
  lemma {:induction false} FullIffSize(ids: set<int>, universe: set<int>)
    requires ids <= universe
    ensures |ids| <= |universe|
    ensures |ids| == |universe| <==> ids == universe
  {
    var rest := universe - ids;
    assert universe == ids + rest;
    assert ids * rest == {};
    assert |universe| == |ids| + |rest|;
    if |ids| == |universe| {
      assert rest == {};
    }
  }

  /** Decimal digits of a count, as the counter prints it; no leading zero except for 0 itself. */
  function NatToString(n: nat): (s: string)
    ensures |s| >= 1
    ensures forall i :: 0 <= i < |s| ==> '0' <= s[i] <= '9'
    ensures n > 0 ==> s[0] != '0'
    ensures n < 10 <==> |s| == 1
    decreases n
  {
    if n < 10 then [Digit(n)] else NatToString(n / 10) + [Digit(n % 10)]
  }

  function Digit(d: nat): (c: char)
    requires d < 10
    ensures '0' <= c <= '9'
    ensures DigitValue(c) == d
  {
    ('0' as int + d) as char
  }

  /** The value of one decimal digit character. */
  function DigitValue(c: char): nat
  {
    if '0' <= c <= '9' then c as int - '0' as int else 0
  }

  /** The number a string of decimal digits denotes, most significant digit first. */
  function DigitsValue(s: string): nat
  {
    if |s| == 0 then 0 else 10 * DigitsValue(s[..|s| - 1]) + DigitValue(s[|s| - 1])
  }

  /** The digits printed for a count read back as that count. */
  lemma {:induction false} NatToStringValue(n: nat)
    ensures DigitsValue(NatToString(n)) == n
    decreases n
  {
    var s := NatToString(n);
    if n >= 10 {
      NatToStringValue(n / 10);
      assert s[..|s| - 1] == NatToString(n / 10);
    }
  }
}
