/** The largest number of a finite set. */
module Maxima {

  /** The largest of the numbers, or the floor when none is above it. */
  ghost function Highest(numbers: set<int>, floor: int): (m: int)
    ensures m >= floor && (m == floor || m in numbers)
    ensures forall v :: v in numbers ==> v <= m
  {
    if exists v :: v in numbers then
      var x :| x in numbers;
      var m := Highest(numbers - {x}, floor);
      assert forall v :: v in numbers ==> v == x || v in numbers - {x};
      if x > m then x else m
    else floor
  }

  /** There is only one such number. */
  lemma HighestIs(numbers: set<int>, floor: int, m: int)
    requires m >= floor && (m == floor || m in numbers)
    requires forall v :: v in numbers ==> v <= m
    ensures Highest(numbers, floor) == m
  {
  }
}
