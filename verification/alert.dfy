/** Persistent dashboard alerts: rising-edge timestamping, a one-shot
    pop-up notification, message replacement, group registration and the
    per-level list of active messages a dashboard reads. */
module Alert {
  import JavaText

  datatype Level = Error | Warning | Info

  /** The pop-up built once at construction; later text changes do not
      reach it. */
  datatype Notification = Notification(title: string, description: string, level: Level)

  /** One alert object. */
  datatype AlertRec = AlertRec(
    title: string,
    message: string,
    level: Level,
    notification: Notification,
    active: bool,
    notificationDisplayed: bool,
    activeStartTime: real)

  /** What an alert does outside itself: a console or driver-station report
      at its level, or a pop-up sent to the dashboard. */
  datatype Effect = Report(level: Level, text: string) | Notify(n: Notification)

  const DefaultGroup: string := "Alerts"

  /** The fields of a freshly constructed alert. */
  function NewAlert(title: string, message: string, level: Level): (a: AlertRec)
    ensures !a.active && !a.notificationDisplayed && a.activeStartTime == 0.0
    ensures a.message == message && a.notification == Notification(title, message, level)
  {
    AlertRec(title, message, level, Notification(title, message, level), false, false, 0.0)
  }

  // ------------------------------------------------------------ set / setText

  /** `set(b)` at time `now`: a false-to-true transition stamps the start
      time and reports the message; the state becomes `b`; the first call of
      all sends the notification. */
  function Set(a: AlertRec, b: bool, now: real): (r: (AlertRec, seq<Effect>))
    ensures r.0.active == b
    ensures r.0.activeStartTime == (if b && !a.active then now else a.activeStartTime)
    ensures r.0.notificationDisplayed
    ensures r.0.message == a.message && r.0.level == a.level && r.0.notification == a.notification
    ensures Report(a.level, a.message) in r.1 <==> b && !a.active
    ensures Notify(a.notification) in r.1 <==> !a.notificationDisplayed
    ensures |r.1| <= 2
  {
    var rising := b && !a.active;
    var reports := if rising then [Report(a.level, a.message)] else [];
    var notes := if !a.notificationDisplayed then [Notify(a.notification)] else [];
    (a.(active := b,
        activeStartTime := if rising then now else a.activeStartTime,
        notificationDisplayed := true),
     reports + notes)
  }

  /** `setText`: the message is always replaced; the new text is reported
      only if the alert is active and the text is different. */
  function SetText(a: AlertRec, text: string): (r: (AlertRec, seq<Effect>))
    ensures r.0.message == text
    ensures r.0.active == a.active && r.0.activeStartTime == a.activeStartTime
    ensures r.0.notification == a.notification && r.0.notificationDisplayed == a.notificationDisplayed
    ensures |r.1| > 0 <==> a.active && text != a.message
    ensures forall e :: e in r.1 ==> e == Report(a.level, text)
  {
    (a.(message := text), if a.active && text != a.message then [Report(a.level, text)] else [])
  }

  /** Apply a series of `set` calls, collecting every effect. */
  function RunSets(a: AlertRec, calls: seq<(bool, real)>): (r: (AlertRec, seq<Effect>))
    decreases |calls|
  {
    if |calls| == 0 then (a, [])
    else
      var s := Set(a, calls[0].0, calls[0].1);
      var rest := RunSets(s.0, calls[1..]);
      (rest.0, s.1 + rest.1)
  }

  /** The number of pop-ups among some effects. */
  function CountNotifies(es: seq<Effect>): (n: nat)
    ensures n <= |es|
  {
    if |es| == 0 then 0 else (if es[0].Notify? then 1 else 0) + CountNotifies(es[1..])
  }

  lemma {:induction false} CountNotifiesAppend(a: seq<Effect>, b: seq<Effect>)
    ensures CountNotifies(a + b) == CountNotifies(a) + CountNotifies(b)
    decreases |a|
  {
    if |a| == 0 {
      assert a + b == b;
    } else {
      assert (a + b)[1..] == a[1..] + b;
      CountNotifiesAppend(a[1..], b);
    }
  }

  /** Once the pop-up has been shown, no later `set` shows it again. */
  lemma {:induction false} NoNotifyOnceDisplayed(a: AlertRec, calls: seq<(bool, real)>)
    requires a.notificationDisplayed
    ensures CountNotifies(RunSets(a, calls).1) == 0
    ensures RunSets(a, calls).0.notificationDisplayed
    decreases |calls|
  {
    if |calls| > 0 {
      var s := Set(a, calls[0].0, calls[0].1);
      NoNotifyOnceDisplayed(s.0, calls[1..]);
      CountNotifiesAppend(s.1, RunSets(s.0, calls[1..]).1);
      assert CountNotifies(s.1) == 0 by {
        if a.active || !calls[0].0 {
          assert s.1 == [];
        } else {
          assert s.1 == [Report(a.level, a.message)];
        }
      }
    }
  }

  /** Over any series of `set` calls on a fresh alert the pop-up is sent
      exactly once if there was at least one call, and never otherwise. */
  lemma {:induction false} NotificationSentOnce(a: AlertRec, calls: seq<(bool, real)>)
    requires !a.notificationDisplayed
    ensures CountNotifies(RunSets(a, calls).1) == (if |calls| == 0 then 0 else 1)
  {
    if |calls| > 0 {
      var s := Set(a, calls[0].0, calls[0].1);
      NoNotifyOnceDisplayed(s.0, calls[1..]);
      CountNotifiesAppend(s.1, RunSets(s.0, calls[1..]).1);
      assert CountNotifies(s.1) == 1 by {
        var note := [Notify(a.notification)];
        if a.active || !calls[0].0 {
          assert s.1 == note;
        } else {
          assert s.1 == [Report(a.level, a.message)] + note;
          CountNotifiesAppend([Report(a.level, a.message)], note);
        }
      }
    }
  }

  /** Setting an already-active alert active again keeps its start time. */
  lemma StartTimeKeptWhileActive(a: AlertRec, now: real)
    requires a.active
    ensures Set(a, true, now).0.activeStartTime == a.activeStartTime
  {
  }

  // ------------------------------------------------------------ groups

  /** Every alert object ever created, and the alerts of each named group
      by their index in creation order. */
  datatype Registry = Registry(groups: map<string, seq<nat>>, alerts: seq<AlertRec>)

  /** Every index a group holds names a created alert. */
  predicate WellFormed(reg: Registry)
  {
    forall g, i :: g in reg.groups && 0 <= i < |reg.groups[g]| ==> reg.groups[g][i] < |reg.alerts|
  }

  /** The constructor with a group: create the group on first use, then add
      the new alert at the end of it. */
  function Construct(reg: Registry, group: string, title: string, message: string, level: Level): (r: (Registry, nat))
    ensures r.1 == |reg.alerts| && r.0.alerts == reg.alerts + [NewAlert(title, message, level)]
    ensures group in r.0.groups
    ensures r.0.groups[group] == (if group in reg.groups then reg.groups[group] else []) + [r.1]
    ensures forall g :: g in reg.groups && g != group ==> g in r.0.groups && r.0.groups[g] == reg.groups[g]
    ensures r.0.groups.Keys == reg.groups.Keys + {group}
  {
    var id := |reg.alerts|;
    var members := if group in reg.groups then reg.groups[group] else [];
    (Registry(reg.groups[group := members + [id]], reg.alerts + [NewAlert(title, message, level)]), id)
  }

  /** The constructor without a group uses "Alerts". */
  function ConstructDefault(reg: Registry, title: string, message: string, level: Level): (r: (Registry, nat))
    ensures DefaultGroup in r.0.groups && r.1 in r.0.groups[DefaultGroup]
    ensures r.1 < |r.0.alerts| && r.0.alerts[r.1] == NewAlert(title, message, level)
  {
    Construct(reg, DefaultGroup, title, message, level)
  }

  /** Construction keeps every group index pointing at a real alert. */
  lemma ConstructPreservesWellFormed(reg: Registry, group: string, title: string, message: string, level: Level)
    requires WellFormed(reg)
    ensures WellFormed(Construct(reg, group, title, message, level).0)
  {
    var r := Construct(reg, group, title, message, level).0;
    forall g, i | g in r.groups && 0 <= i < |r.groups[g]|
      ensures r.groups[g][i] < |r.alerts|
    {
      if g == group && g in reg.groups && i < |reg.groups[g]| {
        assert r.groups[g][i] == reg.groups[g][i];
      }
    }
  }

  // ------------------------------------------------------------ getStrings

  /** The alerts a level's list shows: active ones of that level, in
      registration order. */
  function Shown(alerts: seq<AlertRec>, level: Level): (r: seq<AlertRec>)
    ensures |r| <= |alerts|
    ensures forall a :: a in r <==> a in alerts && a.level == level && a.active
  {
    if |alerts| == 0 then []
    else
      var rest := Shown(alerts[1..], level);
      assert forall a :: a in alerts <==> a == alerts[0] || a in alerts[1..];
      if alerts[0].level == level && alerts[0].active then [alerts[0]] + rest else rest
  }

  /** The sort comparator: the difference of start times cast to `int`. */
  function CompareStart(a1: AlertRec, a2: AlertRec): int
  {
    JavaText.IntCast(a2.activeStartTime - a1.activeStartTime)
  }

  /** Start times less than a second apart compare as equal, in either
      direction. */
  lemma CompareWithinASecondIsZero(a1: AlertRec, a2: AlertRec)
    requires -1.0 < a2.activeStartTime - a1.activeStartTime < 1.0
    ensures CompareStart(a1, a2) == 0 && CompareStart(a2, a1) == 0
  {
  }

  /** The comparator is not a total order: its "equal" is not transitive. */
  lemma CompareNotTransitive()
    ensures var a, b, c := NewAlert("", "", Info).(activeStartTime := 0.0),
                           NewAlert("", "", Info).(activeStartTime := 0.6),
                           NewAlert("", "", Info).(activeStartTime := 1.2);
      CompareStart(a, b) == 0 && CompareStart(b, c) == 0 && CompareStart(a, c) == 1
  {
  }

  /** An arrangement of `n` items: each position names a distinct item. */
  predicate IsPermutation(order: seq<nat>, n: nat)
  {
    && |order| == n
    && (forall i :: 0 <= i < |order| ==> order[i] < n)
    && (forall i, j :: 0 <= i < j < |order| ==> order[i] != order[j])
  }

  /** The messages of some alerts, in their order. */
  function Messages(alerts: seq<AlertRec>): (r: seq<string>)
    ensures |r| == |alerts| && forall i :: 0 <= i < |alerts| ==> r[i] == alerts[i].message
  {
    seq(|alerts|, i requires 0 <= i < |alerts| => alerts[i].message)
  }

  /** The items of `s` at the positions `order` names, in that order. */
  function Permute(s: seq<string>, order: seq<nat>): (r: seq<string>)
    requires forall i :: 0 <= i < |order| ==> order[i] < |s|
    ensures |r| == |order| && forall i :: 0 <= i < |order| ==> r[i] == s[order[i]]
  {
    seq(|order|, i requires 0 <= i < |order| => s[order[i]])
  }

  /** `getStrings(level)`: the messages of the shown alerts in the order the
      sort produced. The comparator above is inconsistent, so the order is a
      parameter — any arrangement of the shown alerts; whatever it is, the
      list holds each shown message as often as it is shown. */
  function GetStrings(alerts: seq<AlertRec>, level: Level, order: seq<nat>): (r: seq<string>)
    requires IsPermutation(order, |Shown(alerts, level)|)
    ensures |r| == |Shown(alerts, level)|
    ensures forall i :: 0 <= i < |r| ==> exists a :: a in alerts && a.level == level && a.active && a.message == r[i]
    ensures multiset(r) == multiset(Messages(Shown(alerts, level)))
  {
    var shown := Shown(alerts, level);
    var r := Permute(Messages(shown), order);
    PermuteMultiset(Messages(shown), order);
    assert forall i :: 0 <= i < |r| ==> shown[order[i]] in shown && r[i] == shown[order[i]].message;
    r
  }

  /** Dropping one position from a permutation of n+1 items that names the
      last item leaves a permutation of the first n. */
  lemma DropLast(order: seq<nat>, n: nat, p: nat)
    requires IsPermutation(order, n + 1) && p < |order| && order[p] == n
    ensures IsPermutation(order[..p] + order[p + 1..], n)
  {
    var o := order[..p] + order[p + 1..];
    forall i | 0 <= i < |o| ensures o[i] < n && (i < p ==> o[i] == order[i]) && (i >= p ==> o[i] == order[i + 1]) {
      if i < p { assert o[i] == order[i]; } else { assert o[i] == order[i + 1]; }
    }
    forall i, j | 0 <= i < j < |o| ensures o[i] != o[j] {
      var i', j' := if i < p then i else i + 1, if j < p then j else j + 1;
      assert o[i] == order[i'] && o[j] == order[j'];
    }
  }

  /** Permuting the first n items by the shortened order is the full
      permutation with the last item's position cut out. */
  lemma PermuteDrop(s: seq<string>, order: seq<nat>, p: nat)
    requires |s| > 0 && IsPermutation(order, |s|) && p < |order| && order[p] == |s| - 1
    requires IsPermutation(order[..p] + order[p + 1..], |s| - 1)
    ensures Permute(s[..|s| - 1], order[..p] + order[p + 1..])
         == Permute(s, order)[..p] + Permute(s, order)[p + 1..]
  {
    var o := order[..p] + order[p + 1..];
    var a, b := Permute(s[..|s| - 1], o), Permute(s, order)[..p] + Permute(s, order)[p + 1..];
    forall i | 0 <= i < |a| ensures a[i] == b[i] {
      if i < p { assert o[i] == order[i]; } else { assert o[i] == order[i + 1]; }
    }
  }

  /** Cutting one position out removes exactly that item. */
  lemma CutOne(r: seq<string>, p: nat)
    requires p < |r|
    ensures multiset(r) == multiset(r[..p] + r[p + 1..]) + multiset{r[p]}
  {
    assert r == r[..p] + [r[p]] + r[p + 1..];
  }

  /** The position of the last item in a permutation. */
  lemma PositionOfLast(order: seq<nat>, n: nat) returns (p: nat)
    requires IsPermutation(order, n + 1)
    ensures p < |order| && order[p] == n
  {
    PermutationCovers(order, n + 1, n);
    p :| 0 <= p < |order| && order[p] == n;
  }

  /** Permuting keeps every item as often as it was. */
  lemma {:induction false} PermuteMultiset(s: seq<string>, order: seq<nat>)
    requires IsPermutation(order, |s|)
    ensures multiset(Permute(s, order)) == multiset(s)
    decreases |s|
  {
    if |s| > 0 {
      var n := |s| - 1;
      var p := PositionOfLast(order, n);
      var o := order[..p] + order[p + 1..];
      DropLast(order, n, p);
      PermuteMultiset(s[..n], o);
      PermuteDrop(s, order, p);
      Reassemble(s, Permute(s, order), p);
    }
  }

  /** Putting the last item back at position p of a rearrangement of the
      first n items gives a rearrangement of all n + 1. */
  lemma Reassemble(s: seq<string>, r: seq<string>, p: nat)
    requires |s| > 0 && p < |r| && r[p] == s[|s| - 1]
    requires multiset(r[..p] + r[p + 1..]) == multiset(s[..|s| - 1])
    ensures multiset(r) == multiset(s)
  {
    CutOne(r, p);
    assert s == s[..|s| - 1] + [s[|s| - 1]];
  }

  /** The distinct items a sequence names. */
  function Elements(order: seq<nat>): (r: set<nat>)
    ensures forall x :: x in r <==> x in order
  {
    if |order| == 0 then {} else {order[0]} + Elements(order[1..])
  }

  /** A distinct sequence has as many distinct items as positions. */
  lemma {:induction false} DistinctCard(order: seq<nat>)
    requires forall i, j :: 0 <= i < j < |order| ==> order[i] != order[j]
    ensures |Elements(order)| == |order|
  {
    if |order| > 0 {
      var rest := order[1..];
      DistinctCard(rest);
      assert order[0] !in rest by {
        forall j | 0 <= j < |rest| ensures rest[j] != order[0] {
          assert rest[j] == order[j + 1];
        }
      }
      assert order[0] !in Elements(rest);
    }
  }

  /** The items 0..n-1 in order. */
  function Range(n: nat): (r: seq<nat>)
    ensures |r| == n && forall i :: 0 <= i < n ==> r[i] == i
  {
    seq(n, i => i)
  }

  /** A permutation of n items names every one of them. */
  lemma PermutationCovers(order: seq<nat>, n: nat, k: nat)
    requires IsPermutation(order, n) && k < n
    ensures k in order
  {
    var used := Elements(order);
    var all := Elements(Range(n));
    DistinctCard(order);
    DistinctCard(Range(n));
    assert used <= all by {
      forall x | x in used ensures x in all {
        assert Range(n)[x] == x;
      }
    }
    assert |all - used| == |all| - |used| == 0;
    assert Range(n)[k] == k;
    assert k in all;
  }

  /** Every shown alert's message appears in the list, so the list holds
      exactly the messages of the active alerts of that level. */
  lemma GetStringsListsEveryShown(alerts: seq<AlertRec>, level: Level, order: seq<nat>, a: AlertRec)
    requires IsPermutation(order, |Shown(alerts, level)|)
    requires a in alerts && a.level == level && a.active
    ensures a.message in GetStrings(alerts, level, order)
  {
    var shown := Shown(alerts, level);
    var k :| 0 <= k < |shown| && shown[k] == a;
    PermutationCovers(order, |shown|, k);
    var i :| 0 <= i < |order| && order[i] == k;
    assert GetStrings(alerts, level, order)[i] == a.message;
  }
}
