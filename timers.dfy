/** The host's timer queue (`setTimeout` / `clearTimeout`), in registration order. */
module Timers {

  /** A registered timeout: its id, the virtual time it is due at, and what it runs. */
  datatype Timer<C> = Timer(id: nat, due: int, callback: C)

  /** The timers left once every id in `cancelled` has been cleared, in their order. */
  function Surviving<C(==,!new)>(timers: seq<Timer<C>>, cancelled: seq<nat>): (r: seq<Timer<C>>)
    ensures forall t :: t in r <==> t in timers && t.id !in cancelled
    ensures |r| <= |timers|
  {
    if timers == [] then []
    else if timers[0].id in cancelled then Surviving(timers[1..], cancelled)
    else [timers[0]] + Surviving(timers[1..], cancelled)
  }

  /** No two timers share an id: the host hands out a new id for every timeout. */
  predicate DistinctIds<C>(timers: seq<Timer<C>>)
  {
    forall i, j :: 0 <= i < j < |timers| ==> timers[i].id != timers[j].id
  }

  /** Clearing timers keeps their ids distinct. */
  lemma {:induction false} SurvivingDistinct<C(!new)>(timers: seq<Timer<C>>, cancelled: seq<nat>)
    requires DistinctIds(timers)
    ensures DistinctIds(Surviving(timers, cancelled))
  {
    if timers != [] {
      var tail := timers[1..];
      assert DistinctIds(tail) by {
        forall i, j | 0 <= i < j < |tail|
          ensures tail[i].id != tail[j].id
        {
          assert tail[i] == timers[i + 1] && tail[j] == timers[j + 1];
        }
      }
      SurvivingDistinct(tail, cancelled);
      if timers[0].id !in cancelled {
        var rest := Surviving(tail, cancelled);
        var r := [timers[0]] + rest;
        forall i, j | 0 <= i < j < |r|
          ensures r[i].id != r[j].id
        {
          if i == 0 {
            assert r[j] == rest[j - 1] && rest[j - 1] in tail;
            var k :| 0 <= k < |tail| && tail[k] == rest[j - 1];
            assert tail[k] == timers[k + 1];
          } else {
            assert r[i] == rest[i - 1] && r[j] == rest[j - 1];
          }
        }
      }
    }
  }

  /** Clearing no id leaves every timer in place. */
  lemma {:induction false} SurvivingNone<C(!new)>(timers: seq<Timer<C>>)
    ensures Surviving(timers, []) == timers
  {
    if timers != [] {
      SurvivingNone(timers[1..]);
    }
  }

  /** Clearing two batches of ids one after the other clears both. */
  lemma {:induction false} SurvivingTwice<C(!new)>(timers: seq<Timer<C>>, a: seq<nat>, b: seq<nat>)
    ensures Surviving(Surviving(timers, a), b) == Surviving(timers, a + b)
  {
    if timers != [] {
      SurvivingTwice(timers[1..], a, b);
      var head := timers[0];
      assert head.id in a + b <==> head.id in a || head.id in b;
      if head.id !in a {
        var once := Surviving(timers, a);
        assert once == [head] + Surviving(timers[1..], a);
        assert once[0] == head && once[1..] == Surviving(timers[1..], a);
      }
    }
  }

  /** `pending.map(clearTimeout)`: clears the ids one by one. */
  method ClearAll<C(==,!new)>(timers: seq<Timer<C>>, pending: seq<nat>) returns (rest: seq<Timer<C>>)
    ensures rest == Surviving(timers, pending)
    ensures forall t :: t in rest ==> t in timers && t.id !in pending
  {
    SurvivingNone(timers);
    rest := timers;
    var k := 0;
    while k < |pending|
      invariant 0 <= k <= |pending|
      invariant rest == Surviving(timers, pending[..k])
    {
      SurvivingTwice(timers, pending[..k], [pending[k]]);
      assert pending[..k + 1] == pending[..k] + [pending[k]];
      rest := Surviving(rest, [pending[k]]);
      k := k + 1;
    }
    assert pending[..k] == pending;
  }
}
