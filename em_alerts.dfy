/**
 * `merge_alerts` of em_impact_app/app.py: the National Weather Service
 * alerts fetched for several points are concatenated, an alert is kept only
 * the first time its key (its `id`, or else its `headline`) is seen, alerts
 * without a key are dropped, and the result is sorted newest `sent` first.
 */
module Alerts {
  import opened Wrappers
  import opened Ranking

  /** One alert as the fetcher builds it; every field may be missing. */
  datatype Alert = Alert(
    id: Option<string>,
    headline: Option<string>,
    severity: Option<string>,
    urgency: Option<string>,
    sent: Option<string>,
    ends: Option<string>,
    link: Option<string>)

  /** `x or y` on optional strings: `None` and `""` are both false. */
  function OrElse(x: Option<string>, y: Option<string>): Option<string> {
    if x.Some? && x.value != "" then x else y
  }

  /** `a.get("id") or a.get("headline")`, with a falsy result read as `""`. */
  function AlertId(a: Alert): string {
    OrElse(a.id, a.headline).GetOr("")
  }

  /** An alert whose key is truthy takes part in the merge. */
  predicate HasKey(a: Alert) {
    AlertId(a) != ""
  }

  /** The sort key `x.get("sent") or ""`. */
  function SentKey(a: Alert): Key {
    Key(0, OrElse(a.sent, None).GetOr(""))
  }

  /** The argument lists one after another. */
  function Flatten(lists: seq<seq<Alert>>): seq<Alert> {
    if lists == [] then [] else Flatten(lists[..|lists| - 1]) + lists[|lists| - 1]
  }

  /** The keys of the alerts in `s`. */
  function KeySet(s: seq<Alert>): set<string> {
    set i | 0 <= i < |s| :: AlertId(s[i])
  }

  /** The alerts the loop keeps, in encounter order. */
  function Dedup(xs: seq<Alert>): (r: seq<Alert>)
    ensures |r| <= |xs|
    ensures forall a :: a in r ==> a in xs && HasKey(a)
  {
    if xs == [] then []
    else
      var kept := Dedup(xs[..|xs| - 1]);
      var a := xs[|xs| - 1];
      if !HasKey(a) || AlertId(a) in KeySet(kept) then kept else kept + [a]
  }

  /** `xs[i]` has a key, and no earlier alert has the same one. */
  predicate FirstOccurrence(xs: seq<Alert>, i: nat)
    requires i < |xs|
  {
    HasKey(xs[i]) && forall j :: 0 <= j < i ==> AlertId(xs[j]) != AlertId(xs[i])
  }

  /** `merge_alerts(*lists)` */
  method MergeAlerts(lists: seq<seq<Alert>>) returns (out: seq<Alert>)
    ensures out == SortDesc(Dedup(Flatten(lists)), SentKey)
  {
    var seen: set<string> := {};
    out := [];
    var i := 0;
    while i < |lists|
      invariant 0 <= i <= |lists|
      invariant out == Dedup(Flatten(lists[..i]))
      invariant seen == KeySet(out)
    {
      out, seen := MergeList(out, seen, Flatten(lists[..i]), lists[i]);
      FlattenSnoc(lists, i);
      i := i + 1;
    }
    assert lists[..i] == lists;
    out := SortDesc(out, SentKey);
  }

  /** The inner loop of `merge_alerts`: one more list's alerts, kept when their key is new. */
  method MergeList(kept: seq<Alert>, seen: set<string>, ghost before: seq<Alert>, lst: seq<Alert>)
    returns (out: seq<Alert>, seen': set<string>)
    requires kept == Dedup(before) && seen == KeySet(kept)
    ensures out == Dedup(before + lst) && seen' == KeySet(out)
  {
    out, seen' := kept, seen;
    var j := 0;
    assert before + lst[..0] == before;
    while j < |lst|
      invariant 0 <= j <= |lst|
      invariant out == Dedup(before + lst[..j])
      invariant seen' == KeySet(out)
    {
      var a := lst[j];
      var aid := AlertId(a);
      DedupStep(before, lst, j);
      if aid != "" && aid !in seen' {
        KeySetSnoc(out, a);
        seen' := seen' + {aid};
        out := out + [a];
      }
      j := j + 1;
    }
    assert lst[..j] == lst;
  }

  /** One more alert: it is kept exactly when it has a key not kept yet. */
  lemma DedupSnoc(xs: seq<Alert>, a: Alert)
    ensures Dedup(xs + [a]) == if !HasKey(a) || AlertId(a) in KeySet(Dedup(xs)) then Dedup(xs) else Dedup(xs) + [a]
  {
    assert (xs + [a])[..|xs + [a]| - 1] == xs;
  }

  /** The inner loop's step, stated on the prefixes the loop walks. */
  lemma DedupStep(before: seq<Alert>, lst: seq<Alert>, j: nat)
    requires j < |lst|
    ensures var kept := Dedup(before + lst[..j]);
            var a := lst[j];
            Dedup(before + lst[..j + 1]) == if !HasKey(a) || AlertId(a) in KeySet(kept) then kept else kept + [a]
  {
    assert before + lst[..j + 1] == (before + lst[..j]) + [lst[j]];
    DedupSnoc(before + lst[..j], lst[j]);
  }

  /** One more list: its alerts come after those of the earlier lists. */
  lemma FlattenSnoc(lists: seq<seq<Alert>>, i: nat)
    requires i < |lists|
    ensures Flatten(lists[..i + 1]) == Flatten(lists[..i]) + lists[i]
  {
    assert lists[..i + 1][..i] == lists[..i];
  }

  lemma KeySetSnoc(s: seq<Alert>, a: Alert)
    ensures KeySet(s + [a]) == KeySet(s) + {AlertId(a)}
  {
    var t := s + [a];
    assert AlertId(t[|s|]) == AlertId(a);
    forall k | k in KeySet(t)
      ensures k in KeySet(s) + {AlertId(a)}
    {
      var i :| 0 <= i < |t| && AlertId(t[i]) == k;
      if i < |s| {
        assert t[i] == s[i];
      }
    }
    forall k | k in KeySet(s)
      ensures k in KeySet(t)
    {
      var i :| 0 <= i < |s| && AlertId(s[i]) == k;
      assert t[i] == s[i];
    }
  }

  /** The kept keys are exactly the keys present: every keyed alert is represented. */
  lemma {:induction false} DedupKeys(xs: seq<Alert>)
    ensures KeySet(Dedup(xs)) == set i | 0 <= i < |xs| && HasKey(xs[i]) :: AlertId(xs[i])
  {
    if xs != [] {
      var p := xs[..|xs| - 1];
      var a := xs[|xs| - 1];
      DedupKeys(p);
      var kept := Dedup(p);
      if HasKey(a) && AlertId(a) !in KeySet(kept) {
        KeySetSnoc(kept, a);
      }
      var lhs := set i | 0 <= i < |xs| && HasKey(xs[i]) :: AlertId(xs[i]);
      var rhs := set i | 0 <= i < |p| && HasKey(p[i]) :: AlertId(p[i]);
      assert forall i :: 0 <= i < |p| ==> xs[i] == p[i];
      assert lhs == rhs + (if HasKey(a) then {AlertId(a)} else {});
    }
  }

  /** No two merged alerts share a key. */
  lemma {:induction false} DedupDistinct(xs: seq<Alert>)
    ensures DistinctBy(Dedup(xs), AlertId)
  {
    if xs != [] {
      var p := xs[..|xs| - 1];
      var a := xs[|xs| - 1];
      DedupDistinct(p);
      var kept := Dedup(p);
      if HasKey(a) && AlertId(a) !in KeySet(kept) {
        var r := kept + [a];
        forall i, j | 0 <= i < j < |r|
          ensures AlertId(r[i]) != AlertId(r[j])
        {
          if j == |kept| {
            assert AlertId(r[i]) in KeySet(kept);
          }
        }
      }
    }
  }

  /** Every merged alert is the first alert with its key, and has one. */
  lemma {:induction false} DedupFirst(xs: seq<Alert>)
    ensures forall a :: a in Dedup(xs) ==> exists i :: 0 <= i < |xs| && xs[i] == a && FirstOccurrence(xs, i)
  {
    if xs != [] {
      var p := xs[..|xs| - 1];
      var a := xs[|xs| - 1];
      DedupFirst(p);
      DedupKeys(p);
      var kept := Dedup(p);
      forall b | b in Dedup(xs)
        ensures exists i :: 0 <= i < |xs| && xs[i] == b && FirstOccurrence(xs, i)
      {
        if b in kept {
          var i :| 0 <= i < |p| && p[i] == b && FirstOccurrence(p, i);
          assert xs[i] == b;
          assert forall j :: 0 <= j < i ==> xs[j] == p[j];
          assert FirstOccurrence(xs, i);
        } else {
          assert b == a && HasKey(a) && AlertId(a) !in KeySet(kept);
          forall j | 0 <= j < |p|
            ensures AlertId(xs[j]) != AlertId(a)
          {
            assert xs[j] == p[j];
            if HasKey(p[j]) {
              assert AlertId(p[j]) in KeySet(kept);
            }
          }
          assert FirstOccurrence(xs, |xs| - 1);
        }
      }
    }
  }

  /** Every first occurrence of a key is kept. */
  lemma {:induction false} DedupComplete(xs: seq<Alert>, i: nat)
    requires i < |xs| && FirstOccurrence(xs, i)
    ensures xs[i] in Dedup(xs)
  {
    var p := xs[..|xs| - 1];
    var a := xs[|xs| - 1];
    if i < |p| {
      assert forall j :: 0 <= j < i ==> p[j] == xs[j];
      DedupComplete(p, i);
    } else {
      assert forall j :: 0 <= j < |p| ==> AlertId(p[j]) == AlertId(xs[j]) != AlertId(a);
      DedupKeys(p);
    }
  }

  /**
   * What `merge_alerts` promises: distinct keys, only first occurrences of
   * keyed input alerts, every key present in the input represented, newest
   * `sent` first, and equal `sent` values in encounter order.
   */
  lemma MergeAlertsSpec(lists: seq<seq<Alert>>)
    ensures var xs := Flatten(lists);
            var out := SortDesc(Dedup(xs), SentKey);
            && DistinctBy(out, AlertId)
            && (forall a :: a in out ==> exists i :: 0 <= i < |xs| && xs[i] == a && FirstOccurrence(xs, i))
            && (forall i :: 0 <= i < |xs| && FirstOccurrence(xs, i) ==> xs[i] in out)
            && SortedDesc(out, SentKey)
            && (forall k :: WithKey(out, SentKey, k) == WithKey(Dedup(xs), SentKey, k))
  {
    var xs := Flatten(lists);
    var d := Dedup(xs);
    var out := SortDesc(d, SentKey);
    DedupDistinct(xs);
    SortDescDistinct(d, SentKey, AlertId);
    DedupFirst(xs);
    forall a | a in out
      ensures a in d
    {
      assert a in multiset(out);
    }
    forall i | 0 <= i < |xs| && FirstOccurrence(xs, i)
      ensures xs[i] in out
    {
      DedupComplete(xs, i);
      assert xs[i] in multiset(d);
    }
    SortDescSorted(d, SentKey);
    forall k
      ensures WithKey(out, SentKey, k) == WithKey(d, SentKey, k)
    {
      SortDescStable(d, SentKey, k);
    }
  }
}
