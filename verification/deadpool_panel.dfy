/** The operator button panel: named buttons, and triggers composed from
    several buttons that must be held together. A trigger is modelled as the
    set of buttons it requires. */
module DeadpoolPanel {

  /** A trigger fires when every button in it is held. */
  type Trigger = set<int>

  function Button(b: int): (t: Trigger)
    ensures b in t && |t| == 1
  {
    {b}
  }

  /** `Trigger.and`: both triggers must fire. */
  function And(a: Trigger, b: Trigger): (t: Trigger)
    ensures forall held: set<int> :: Fires(t, held) <==> Fires(a, held) && Fires(b, held)
  {
    a + b
  }

  predicate Fires(t: Trigger, held: set<int>)
  {
    t <= held
  }

  /** The panel's named buttons, as (name, button number). */
  const StaticButtons: seq<(string, int)> := [
    ("HumanPlayerOn", 15), ("HumanPlayerOff", 12), ("CoralBeam", 13),
    ("AlgaeIntakeHigh", 16), ("AlgaeIntakeLow", 17), ("AlgaeIntakeGround", 18),
    ("L4Score", 6), ("L3Score", 7), ("L2Score", 8), ("L1Score", 9),
    ("R4Score", 2), ("R3Score", 3), ("R2Score", 4), ("R1Score", 5),
    ("Idle", 14), ("AlgaeProcessor", 11), ("AlgaeBarge", 10),
    ("Out", 1)]

  /** The button numbers of a table, in table order. */
  function Numbers(table: seq<(string, int)>): (r: seq<int>)
    ensures |r| == |table| && forall i :: 0 <= i < |table| ==> r[i] == table[i].1
  {
    seq(|table|, i requires 0 <= i < |table| => table[i].1)
  }

  /** The table position of each button 1..18 (index 0 is unused); it
      witnesses that no button appears twice. */
  const ButtonSlot: seq<int> := [-1, 17, 10, 11, 12, 13, 6, 7, 8, 9, 16, 15, 1, 2, 14, 0, 3, 4, 5]

  /** Each table entry's button is in 1..18 and its slot leads back to the
      entry. */
  lemma SlotOfEntry()
    ensures |StaticButtons| == 18
    ensures forall i :: 0 <= i < 18 ==> 1 <= StaticButtons[i].1 <= 18 && ButtonSlot[StaticButtons[i].1] == i
  {
    assert Numbers(StaticButtons) == [15, 12, 13, 16, 17, 18, 6, 7, 8, 9, 2, 3, 4, 5, 14, 11, 10, 1];
  }

  /** Every button 1..18 has a name. */
  lemma EveryButtonNamed()
    ensures forall b :: 1 <= b <= 18 ==> b in Numbers(StaticButtons)
  {
    assert Numbers(StaticButtons) == [15, 12, 13, 16, 17, 18, 6, 7, 8, 9, 2, 3, 4, 5, 14, 11, 10, 1];
  }

  /** The named buttons use every button 1..18, each exactly once. */
  lemma StaticButtonsCoverPanel()
    ensures |StaticButtons| == 18
    ensures forall b :: 1 <= b <= 18 ==> b in Numbers(StaticButtons)
    ensures forall i :: 0 <= i < |StaticButtons| ==> 1 <= StaticButtons[i].1 <= 18
    ensures forall i, j :: 0 <= i < j < |StaticButtons| ==> StaticButtons[i].1 != StaticButtons[j].1
  {
    SlotOfEntry();
    EveryButtonNamed();
  }

  /** `getButtonPressFromInteger`: below 12 the button itself; from 12 on
      the button `b % 12` and-ed with button 1, `b / 12` times. */
  method ButtonPressFromInteger(b: int) returns (t: Trigger)
    ensures b < 12 ==> t == {b}
    ensures b >= 12 ==> t == {b % 12, 1}
  {
    if b < 12 {
      return Button(b);
    }
    t := Button(b % 12);
    var i := 0;
    while i < b / 12
      invariant 0 <= i <= b / 12
      invariant t == if i == 0 then {b % 12} else {b % 12, 1}
    {
      t := And(t, Button(1));
      i := i + 1;
    }
  }

  /** Bit `i` of a non-negative number. */
  function Bit(v: nat, i: nat): bool
  {
    if i == 0 then v % 2 == 1 else Bit(v / 2, i - 1)
  }

  /** `createTriggerBinaryInteger`: button 1, plus button i+1 for each of
      bits 1 and 2 set in the value — but only when the value exceeds 1. */
  method TriggerBinaryInteger(v: int) returns (t: Trigger)
    ensures 1 in t
    ensures v <= 1 ==> t == {1}
    ensures v > 1 ==> t == {1} + (if Bit(v, 1) then {2} else {}) + (if Bit(v, 2) then {3} else {})
  {
    t := Button(1);
    if v > 1 {
      var low, high := Bit(v, 1), Bit(v, 2);
      var i := 1;
      while i < 3
        invariant 1 <= i <= 3
        invariant t == {1} + (if i > 1 && low then {2} else {}) + (if i > 2 && high then {3} else {})
      {
        assert i == 1 || i == 2;
        var bitSet := Bit(v, i);
        assert bitSet == if i == 1 then low else high;
        if bitSet {
          t := And(t, Button(i + 1));
        }
        if i == 1 {
          assert t == {1} + (if low then {2} else {});
        } else {
          assert t == {1} + (if low then {2} else {}) + (if high then {3} else {});
        }
        i := i + 1;
      }
    }
  }

  /** Bit 0 and every bit from 3 up make no difference: raising the value
      by a multiple of 8, or setting bit 0, leaves bits 1 and 2 alone. */
  lemma OnlyBitsOneAndTwoMatter(v: nat, k: nat)
    ensures Bit(v + 8 * k, 1) == Bit(v, 1) && Bit(v + 8 * k, 2) == Bit(v, 2)
    ensures v % 2 == 0 ==> Bit(v + 1, 1) == Bit(v, 1) && Bit(v + 1, 2) == Bit(v, 2)
  {
    assert (v + 8 * k) / 2 == v / 2 + 4 * k;
    assert (v / 2 + 4 * k) / 2 == v / 2 / 2 + 2 * k;
    assert (v / 2 / 2 + 2 * k) % 2 == v / 2 / 2 % 2;
    assert (v / 2 + 4 * k) % 2 == v / 2 % 2;
    var w := v + 8 * k;
    assert Bit(w, 2) == Bit(w / 2, 1) == Bit(w / 2 / 2, 0);
    assert Bit(v, 2) == Bit(v / 2, 1) == Bit(v / 2 / 2, 0);
    if v % 2 == 0 {
      assert (v + 1) / 2 == v / 2;
    }
  }
}
