/**
 * Queries and totals over the activity log, shared by the state manager, the
 * dashboard and the trend chart.
 *
 * `Sum` is the application's fold `reduce((sum, a) => sum + a.value, 0)`;
 * `TypeTotal` and `MatchTotal` are independent reference definitions of "the
 * sum of the values of the matching activities", and the lemmas below show
 * that filtering then folding computes them.
 */
module ActivityLog {
  import opened FitnessTypes
  import opened Filtering

  /** Left fold of the values, in log order. */
  function Sum(s: seq<Activity>): (r: real)
    ensures (forall i :: 0 <= i < |s| ==> s[i].value >= 0.0) ==> r >= 0.0
  {
    if s == [] then 0.0 else Sum(s[..|s| - 1]) + s[|s| - 1].value
  }

  /** Activities of type `t` (getActivitiesByType). */
  function OfType(acts: seq<Activity>, t: ActivityType): (r: seq<Activity>)
    ensures IsSubsequence(r, acts)
    ensures forall a :: a in r <==> a in acts && a.kind == t
    ensures forall a :: multiset(r)[a] == if a.kind == t then multiset(acts)[a] else 0
  {
    Select(acts, ActivityKind, t)
  }

  /** Activities dated `d` (getActivitiesByDate). */
  function OnDate(acts: seq<Activity>, d: Day): (r: seq<Activity>)
    ensures IsSubsequence(r, acts)
    ensures forall a :: a in r <==> a in acts && a.date == d
    ensures forall a :: multiset(r)[a] == if a.date == d then multiset(acts)[a] else 0
  {
    Select(acts, ActivityDate, d)
  }

  /** Reference: the sum of the values of all activities of type `t`, any date. */
  function TypeTotal(acts: seq<Activity>, t: ActivityType): real {
    if acts == [] then 0.0
    else (if acts[0].kind == t then acts[0].value else 0.0) + TypeTotal(acts[1..], t)
  }

  /** Reference: the sum of the values of the activities of type `t` dated `d`. */
  function MatchTotal(acts: seq<Activity>, d: Day, t: ActivityType): real {
    if acts == [] then 0.0
    else (if acts[0].date == d && acts[0].kind == t then acts[0].value else 0.0) + MatchTotal(acts[1..], d, t)
  }

  lemma {:induction false} SumAppend(a: seq<Activity>, b: seq<Activity>)
    ensures Sum(a + b) == Sum(a) + Sum(b)
  {
    if b != [] {
      var b' := b[..|b| - 1];
      assert (a + b)[..|a + b| - 1] == a + b';
      SumAppend(a, b');
    } else {
      assert a + b == a;
    }
  }

  lemma SumCons(x: Activity, s: seq<Activity>)
    ensures Sum([x] + s) == x.value + Sum(s)
  {
    SumAppend([x], s);
    assert [x][..0] == [];
  }

  lemma {:induction false} TypeTotalAppend(a: seq<Activity>, b: seq<Activity>, t: ActivityType)
    ensures TypeTotal(a + b, t) == TypeTotal(a, t) + TypeTotal(b, t)
  {
    if a == [] {
      assert a + b == b;
    } else {
      assert (a + b)[1..] == a[1..] + b;
      TypeTotalAppend(a[1..], b, t);
    }
  }

  lemma {:induction false} MatchTotalAppend(a: seq<Activity>, b: seq<Activity>, d: Day, t: ActivityType)
    ensures MatchTotal(a + b, d, t) == MatchTotal(a, d, t) + MatchTotal(b, d, t)
  {
    if a == [] {
      assert a + b == b;
    } else {
      assert (a + b)[1..] == a[1..] + b;
      MatchTotalAppend(a[1..], b, d, t);
    }
  }

  /** Filtering by type and then folding gives the per-type total. */
  lemma {:induction false} SumOfTypeIsTypeTotal(acts: seq<Activity>, t: ActivityType)
    ensures Sum(OfType(acts, t)) == TypeTotal(acts, t)
  {
    if acts != [] {
      SumOfTypeIsTypeTotal(acts[1..], t);
      assert OfType(acts, t) == (if acts[0].kind == t then [acts[0]] else []) + OfType(acts[1..], t);
      if acts[0].kind == t {
        SumCons(acts[0], OfType(acts[1..], t));
      } else {
        assert [] + OfType(acts[1..], t) == OfType(acts[1..], t);
      }
    }
  }

  /** Filtering by date, then by type, then folding gives the per-day total. */
  lemma {:induction false} SumOnDateOfTypeIsMatchTotal(acts: seq<Activity>, d: Day, t: ActivityType)
    ensures Sum(OfType(OnDate(acts, d), t)) == MatchTotal(acts, d, t)
  {
    if acts != [] {
      var x := acts[0];
      SumOnDateOfTypeIsMatchTotal(acts[1..], d, t);
      var dated := OnDate(acts[1..], d);
      assert OnDate(acts, d) == (if x.date == d then [x] else []) + dated;
      if x.date == d {
        assert OfType([x] + dated, t) == (if x.kind == t then [x] else []) + OfType(dated, t) by {
          assert ([x] + dated)[1..] == dated;
        }
        if x.kind == t {
          SumCons(x, OfType(dated, t));
        } else {
          assert [] + OfType(dated, t) == OfType(dated, t);
        }
      } else {
        assert [] + dated == dated;
      }
    }
  }

  /** A log with no activity of type `t` totals 0 for `t`. */
  lemma {:induction false} TypeTotalNone(acts: seq<Activity>, t: ActivityType)
    requires forall i :: 0 <= i < |acts| ==> acts[i].kind != t
    ensures TypeTotal(acts, t) == 0.0
  {
    if acts != [] {
      TypeTotalNone(acts[1..], t);
    }
  }

  /** A log with no activity of type `t` on day `d` totals 0 for that day. */
  lemma {:induction false} MatchTotalNone(acts: seq<Activity>, d: Day, t: ActivityType)
    requires forall i :: 0 <= i < |acts| ==> acts[i].date != d || acts[i].kind != t
    ensures MatchTotal(acts, d, t) == 0.0
  {
    if acts != [] {
      MatchTotalNone(acts[1..], d, t);
    }
  }

  /** The per-type total with non-negative values is non-negative. */
  lemma {:induction false} TypeTotalNonNegative(acts: seq<Activity>, t: ActivityType)
    requires forall i :: 0 <= i < |acts| ==> acts[i].value >= 0.0
    ensures TypeTotal(acts, t) >= 0.0
  {
    if acts != [] {
      TypeTotalNonNegative(acts[1..], t);
    }
  }

  /** Logging one more activity raises the total of its own type by its value and no other. */
  lemma LogOneMore(acts: seq<Activity>, x: Activity, t: ActivityType)
    ensures TypeTotal(acts + [x], t) == TypeTotal(acts, t) + (if x.kind == t then x.value else 0.0)
  {
    TypeTotalAppend(acts, [x], t);
  }
}
