/**
 * The key-rate cache: one process-wide cell holding the last rate and the
 * instant it was fetched, valid for one hour. The external rate source is a
 * fixed placeholder of 16 (percent); a zero rate marks the cell as empty.
 */
module KeyRate {
  import opened Models
  import Calendar

  /** The rate the placeholder source always supplies. */
  const FixedKeyRate: Money := 16.0

  /** How long a fetched rate is reused. */
  const CacheTtl: int := Calendar.Hour

  /** Go's zero time.Time (0001-01-01T00:00:00Z), the cell's initial timestamp. */
  const ZeroTime: Instant := -62_135_596_800 * Calendar.Second

  /** What a rate lookup returns: a rate, or the error that the caller replaces by a fallback. */
  datatype RateResult = RateOk(rate: Money) | RateErr(message: string)

  /** The contents of the cache cell. */
  datatype RateCell = RateCell(rate: Money, fetchedAt: Instant)

  /** A cell is served as it is when it holds a nonzero rate fetched less than an hour ago. */
  predicate IsFresh(c: RateCell, now: Instant)
  {
    c.rate != 0.0 && now - c.fetchedAt < CacheTtl
  }

  /**
   * One lookup at `now`: the cell afterwards and the rate returned. After a
   * lookup the cell is never empty and holds exactly the rate just returned,
   * which is the cached one or the fixed one.
   */
  function Lookup(c: RateCell, now: Instant): (r: (RateCell, Money))
    ensures r.0.rate != 0.0 && r.0.rate == r.1
    ensures r.0 == c || r.0 == RateCell(FixedKeyRate, now)
  {
    if IsFresh(c, now) then (c, c.rate) else (RateCell(FixedKeyRate, now), FixedKeyRate)
  }

  /** A zero rate counts as empty whatever its age: the lookup always refreshes it. */
  lemma EmptyCellRefreshes(c: RateCell, now: Instant)
    requires c.rate == 0.0
    ensures Lookup(c, now) == (RateCell(FixedKeyRate, now), FixedKeyRate)
  {
  }

  /**
   * A second lookup less than an hour after the cell was last filled (for an
   * empty or stale cell, at the first lookup) returns the same rate and
   * changes nothing.
   */
  lemma SecondLookupWithinHour(c: RateCell, t1: Instant, t2: Instant)
    requires t2 - Lookup(c, t1).0.fetchedAt < CacheTtl
    ensures Lookup(Lookup(c, t1).0, t2) == (Lookup(c, t1).0, Lookup(c, t1).1)
  {
  }

  /** The cell after successive lookups at the instants `ts`, and the rates they return. */
  function Replay(c: RateCell, ts: seq<Instant>): (RateCell, seq<Money>)
    decreases |ts|
  {
    if ts == [] then (c, [])
    else
      var (c', r) := Lookup(c, ts[0]);
      var (last, rs) := Replay(c', ts[1..]);
      (last, [r] + rs)
  }

  /**
   * As long as every lookup falls within the hour after a nonzero rate was
   * fetched, each one returns that rate and the cell never changes.
   */
  lemma {:induction false} ReplayWithinHour(c: RateCell, ts: seq<Instant>)
    requires c.rate != 0.0
    requires forall i :: 0 <= i < |ts| ==> ts[i] - c.fetchedAt < CacheTtl
    ensures Replay(c, ts).0 == c
    ensures |Replay(c, ts).1| == |ts|
    ensures forall i :: 0 <= i < |ts| ==> Replay(c, ts).1[i] == c.rate
    decreases |ts|
  {
    if ts != [] {
      ReplayWithinHour(c, ts[1..]);
    }
  }

  /**
   * Whatever the instants, every rate returned is the one cached at the start
   * or the fixed rate, and after at least one lookup the cell is not empty.
   */
  lemma {:induction false} ReplayRates(c: RateCell, ts: seq<Instant>)
    ensures |Replay(c, ts).1| == |ts|
    ensures forall i :: 0 <= i < |ts| ==> Replay(c, ts).1[i] == c.rate || Replay(c, ts).1[i] == FixedKeyRate
    ensures ts != [] ==> Replay(c, ts).0.rate != 0.0
    decreases |ts|
  {
    if ts != [] {
      var c' := Lookup(c, ts[0]).0;
      ReplayRates(c', ts[1..]);
      assert c'.rate == c.rate || c'.rate == FixedKeyRate;
    }
  }

  /** The process-wide cache cell. */
  class KeyRateCache {
    var rate: Money
    var fetchedAt: Instant

    /** The cell's contents as a value. */
    function Cell(): RateCell
      reads this
    {
      RateCell(rate, fetchedAt)
    }

    /** The cell as the process starts: empty, stamped with the zero time. */
    constructor ()
      ensures rate == 0.0 && fetchedAt == ZeroTime
    {
      rate := 0.0;
      fetchedAt := ZeroTime;
    }

    /**
     * The key rate at `now`: the cached rate while it is nonzero and under an
     * hour old (the cell untouched), otherwise the fixed rate, which is then
     * cached with `now` as its fetch time. The lookup never fails.
     */
    method GetKeyRate(now: Instant) returns (r: RateResult)
      modifies this
      ensures IsFresh(old(Cell()), now) ==> r == RateOk(old(rate)) && rate == old(rate) && fetchedAt == old(fetchedAt)
      ensures !IsFresh(old(Cell()), now) ==> r == RateOk(FixedKeyRate) && rate == FixedKeyRate && fetchedAt == now
      ensures r == RateOk(Lookup(old(Cell()), now).1) && Cell() == Lookup(old(Cell()), now).0
    {
      if IsFresh(Cell(), now) {
        return RateOk(rate);
      }
      rate := FixedKeyRate;
      fetchedAt := now;
      r := RateOk(FixedKeyRate);
    }
  }
}
