/**
 The `debut` function generated into the script when identity is on: under a
 process-wide lock it reads the clock, and while the reading is not strictly
 later than the last minted instant it either adds one nanosecond (when the
 two are equal) or reads the clock again (when the reading is earlier). The
 result is stored as the new last instant.

 Time is an integer count of nanoseconds; the clock is the sequence of
 readings it will give, in order, to the successive reads.
 */
module Debut {
  import opened Actor

  /** A minted instant and the clock readings still unread. */
  datatype Minted = Minted(debut: int, rest: seq<int>)

  /** One call of `debut` with last instant `last`. None when the readings
      run out before one reaches `last`: the source keeps re-reading. */
  function Mint(last: int, clock: seq<int>): (r: Option<Minted>)
    decreases |clock|
    ensures r.Some? ==> r.value.debut > last && |r.value.rest| < |clock|
  {
    if clock == [] then None
    else if last < clock[0] then Some(Minted(clock[0], clock[1..]))
    else if last == clock[0] then Some(Minted(clock[0] + 1, clock[1..]))
    else Mint(last, clock[1..])
  }

  /** What a call of `debut` returns, stated on the readings: it stops at the
      first reading `clock[k]` not earlier than `last`, returning that
      reading, or `last` plus one nanosecond if the two are equal, and leaves
      the readings after it unread. It fails only if every reading is
      earlier than `last`. */
  lemma {:induction false} MintFirstReadingNotEarlier(last: int, clock: seq<int>)
    decreases |clock|
    ensures Mint(last, clock).None? <==> forall j :: 0 <= j < |clock| ==> clock[j] < last
    ensures Mint(last, clock).Some? ==>
              var m := Mint(last, clock).value; var k := |clock| - |m.rest| - 1;
              && 0 <= k < |clock| && m.rest == clock[k + 1..]
              && (forall j :: 0 <= j < k ==> clock[j] < last)
              && clock[k] >= last
              && m.debut == (if clock[k] == last then last + 1 else clock[k])
  {
    if clock != [] && clock[0] < last {
      MintFirstReadingNotEarlier(last, clock[1..]);
      var r := Mint(last, clock[1..]);
      if r.Some? {
        var m := r.value;
        assert clock[1..][|clock| - |m.rest| - 1..] == clock[|clock| - |m.rest|..];
        assert forall j :: 1 <= j < |clock| ==> clock[j] == clock[1..][j - 1];
      } else {
        assert forall j :: 1 <= j < |clock| ==> clock[j] == clock[1..][j - 1];
      }
    }
  }

  /** `n` successive calls of `debut`, serialised by the lock, sharing the
      cell and the clock: the instants minted and the final cell value. */
  datatype Series = Series(debuts: seq<int>, last: int, rest: seq<int>)

  function MintSeries(last: int, clock: seq<int>, n: nat): Option<Series>
    decreases n
  {
    if n == 0 then Some(Series([], last, clock))
    else
      match Mint(last, clock)
      case None => None
      case Some(m) =>
        match MintSeries(m.debut, m.rest, n - 1)
        case None => None
        case Some(s) => Some(Series([m.debut] + s.debuts, s.last, s.rest))
  }

  /** Successive mints are strictly increasing, all later than the initial
      cell value, and the cell ends holding the last one. */
  lemma {:induction false} SeriesStrictlyIncreasing(last: int, clock: seq<int>, n: nat)
    requires MintSeries(last, clock, n).Some?
    decreases n
    ensures var s := MintSeries(last, clock, n).value;
      && |s.debuts| == n
      && (forall i :: 0 <= i < n ==> s.debuts[i] > last)
      && (forall i, j :: 0 <= i < j < n ==> s.debuts[i] < s.debuts[j])
      && (n > 0 ==> s.last == s.debuts[n - 1])
      && (n == 0 ==> s.last == last)
  {
    if n > 0 {
      SeriesStep(last, clock, n);
      var m := Mint(last, clock).value;
      SeriesStrictlyIncreasing(m.debut, m.rest, n - 1);
      var s := MintSeries(last, clock, n).value;
      var t := MintSeries(m.debut, m.rest, n - 1).value;
      assert forall i :: 1 <= i < n ==> s.debuts[i] == t.debuts[i - 1];
    }
  }

  lemma SeriesStep(last: int, clock: seq<int>, n: nat)
    requires n > 0 && MintSeries(last, clock, n).Some?
    ensures Mint(last, clock).Some?
    ensures var m := Mint(last, clock).value;
      && MintSeries(m.debut, m.rest, n - 1).Some?
      && MintSeries(last, clock, n).value.debuts
         == [m.debut] + MintSeries(m.debut, m.rest, n - 1).value.debuts
      && MintSeries(last, clock, n).value.last == MintSeries(m.debut, m.rest, n - 1).value.last
  {
  }

  /** A clock stuck at one reading equal to the last instant still mints:
      the reading is bumped by one nanosecond. */
  lemma EqualReadingIsBumped(last: int, clock: seq<int>)
    requires |clock| > 0 && clock[0] == last
    ensures Mint(last, clock) == Some(Minted(last + 1, clock[1..]))
  {
  }

  /** An earlier reading is discarded and the clock read again. */
  lemma EarlierReadingIsReread(last: int, clock: seq<int>)
    requires |clock| > 0 && clock[0] < last
    ensures Mint(last, clock) == Mint(last, clock[1..])
  {
  }
}
