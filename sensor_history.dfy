/** The per-mine rolling history of `useSensorHistory.js`: a dictionary
    from mine id to the last 30 readings, kept in a ref and mutated in
    place. */
module SensorHistory {
  import opened JsNumber
  import opened Mines

  /** At most this many readings are kept per mine. */
  const Capacity: nat := 30

  /** One stored reading: the formatted clock time and the rounded values. */
  datatype Reading = Reading(time: string, ph: real, lead: real, pm25: real)

  /** The reading stored for `mine` at clock time `time`: pH to two places,
      lead and PM2.5 to one. */
  function ReadingOf(mine: Mine, time: string): (r: Reading)
    ensures r.time == time
    ensures r.ph == FixedRound(mine.ph, 2) && r.lead == FixedRound(mine.lead, 1) && r.pm25 == FixedRound(mine.pm25, 1)
    ensures Abs(r.ph - mine.ph) <= 0.005 && Abs(r.lead - mine.lead) <= 0.05 && Abs(r.pm25 - mine.pm25) <= 0.05
  {
    RoundedClose2(mine.ph);
    RoundedClose1(mine.lead);
    RoundedClose1(mine.pm25);
    Reading(time, FixedRound(mine.ph, 2), FixedRound(mine.lead, 1), FixedRound(mine.pm25, 1))
  }

  /** Rounding to one or two places moves a value by at most half a unit in the last
      place. */
  lemma RoundedClose(x: real, places: nat, half: real)
    requires half == 0.5 / Pow10(places) as real
    ensures Abs(FixedRound(x, places) - x) <= half
  {
    ToFixedClose(x, places);
  }

  lemma RoundedClose1(x: real)
    ensures Abs(FixedRound(x, 1) - x) <= 0.05
  {
    assert Pow10(1) == 10;
    RoundedClose(x, 1, 0.05);
  }

  lemma RoundedClose2(x: real)
    ensures Abs(FixedRound(x, 2) - x) <= 0.005
  {
    assert Pow10(2) == 100;
    RoundedClose(x, 2, 0.005);
  }

  /** The last `n` elements of `s` (all of it when it is shorter). */
  function LastN<T>(s: seq<T>, n: nat): (r: seq<T>)
    ensures |r| == if |s| <= n then |s| else n
    ensures r == s[|s| - |r|..]
  {
    if |s| <= n then s else s[|s| - n..]
  }

  /** `push` followed by one `shift` when the list has grown past the
      capacity. */
  function Pushed(h: seq<Reading>, r: Reading): (h': seq<Reading>)
    requires |h| <= Capacity
    ensures h' == LastN(h + [r], Capacity)
    ensures |h'| <= Capacity && h'[|h'| - 1] == r
    ensures |h| < Capacity ==> h' == h + [r]
    ensures |h| == Capacity ==> h' == h[1..] + [r]
  {
    var g := h + [r];
    if |g| > Capacity then g[1..] else g
  }

  /** Pushing readings one at a time into a history. */
  function PushAll(h: seq<Reading>, rs: seq<Reading>): (h': seq<Reading>)
    requires |h| <= Capacity
    ensures |h'| <= Capacity
    decreases |rs|
  {
    if |rs| == 0 then h else PushAll(Pushed(h, rs[0]), rs[1..])
  }

  /** However many readings arrive, the history is exactly the last 30 of
      everything ever pushed, in arrival order. */
  lemma {:induction false} PushAllKeepsLast(h: seq<Reading>, rs: seq<Reading>)
    requires |h| <= Capacity
    ensures PushAll(h, rs) == LastN(h + rs, Capacity)
    decreases |rs|
  {
    if |rs| > 0 {
      var g := Pushed(h, rs[0]);
      assert PushAll(h, rs) == PushAll(g, rs[1..]);
      PushAllKeepsLast(g, rs[1..]);
      LastNAppend(h + [rs[0]], rs[1..]);
      HeadTail(h, rs);
    }
  }

  lemma HeadTail(h: seq<Reading>, rs: seq<Reading>)
    requires |rs| > 0
    ensures h + [rs[0]] + rs[1..] == h + rs
  {
    assert rs == [rs[0]] + rs[1..];
  }

  /** Dropping from the front before appending changes nothing once only
      the last `Capacity` are kept. */
  lemma LastNAppend(s: seq<Reading>, t: seq<Reading>)
    ensures LastN(LastN(s, Capacity) + t, Capacity) == LastN(s + t, Capacity)
  {
    var u := LastN(s, Capacity);
    var k := |s| - |u|;
    assert s + t == s[..k] + (u + t);
  }

  /** Writing a key twice leaves only the second value. */
  lemma OverwriteKey(m: map<int, seq<Reading>>, k: int, a: seq<Reading>, b: seq<Reading>)
    ensures m[k := a][k := b] == m[k := b]
  {
  }

  /** Storing a history within the capacity keeps every history within it. */
  lemma StillWithinCapacity(m: map<int, seq<Reading>>, id: int, h: seq<Reading>)
    requires WithinCapacity(m) && |h| <= Capacity
    ensures WithinCapacity(m[id := h])
  {
  }

  /** Every history of `m` is within the capacity. */
  predicate WithinCapacity(m: map<int, seq<Reading>>) {
    forall id :: id in m ==> |m[id]| <= Capacity
  }

  /** The `historyRef.current` dictionary. */
  class SensorHistoryStore {
    var histories: map<int, seq<Reading>>

    /** Every kept history is within the capacity. */
    predicate Valid()
      reads this
    {
      WithinCapacity(histories)
    }

    constructor ()
      ensures histories == map[] && Valid()
    {
      histories := map[];
    }

    /** `getSensorHistory`: the stored list, or an empty one. */
    function GetSensorHistory(mineId: int): (h: seq<Reading>)
      reads this
      ensures mineId in histories ==> h == histories[mineId]
      ensures mineId !in histories ==> h == []
      ensures Valid() ==> |h| <= Capacity
    {
      if mineId in histories then histories[mineId] else []
    }

    /** `addSensorReading`: creates the list on first use, appends the
        rounded reading and drops the oldest beyond 30. Other mines are
        untouched. */
    method AddSensorReading(mineId: int, mine: Mine, time: string)
      requires Valid()
      modifies this
      ensures Valid()
      ensures histories == old(histories)[mineId := Pushed(old(GetSensorHistory(mineId)), ReadingOf(mine, time))]
    {
      ghost var before := GetSensorHistory(mineId);
      ghost var start := histories;
      var r := ReadingOf(mine, time);
      if mineId !in histories {
        histories := histories[mineId := []];
      }
      assert histories[mineId] == before;
      var h := histories[mineId] + [r];
      if |h| > Capacity {
        h := h[1..];
      }
      assert h == Pushed(before, r);
      StillWithinCapacity(histories, mineId, h);
      OverwriteKey(start, mineId, [], h);
      histories := histories[mineId := h];
    }

    /** `clearHistory`: forgets the mine's list entirely. */
    method ClearHistory(mineId: int)
      requires Valid()
      modifies this
      ensures Valid()
      ensures histories == old(histories) - {mineId}
      ensures GetSensorHistory(mineId) == []
    {
      histories := histories - {mineId};
    }
  }
}
