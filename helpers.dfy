/** helpers.py: the one piece of arithmetic the menus share. */
module Helpers {

  /** `increment_with_wrap`: add `increment` to `value`; below zero wraps to
      `maxValue`, above `maxValue` wraps to zero. The wrap is not modular:
      any overshoot lands on the opposite end. */
  function IncrementWithWrap(value: int, increment: int, maxValue: int): (r: int)
    ensures 0 <= value + increment <= maxValue ==> r == value + increment
    ensures value + increment < 0 ==> r == maxValue
    ensures 0 <= value + increment && maxValue < value + increment ==> r == 0
    ensures 0 <= maxValue ==> 0 <= r <= maxValue
  {
    var v := value + increment;
    if v < 0 then maxValue
    else if v > maxValue then 0
    else v
  }

  /** From a value in range, a step of one up or down stays in range. */
  lemma WrapStaysInRange(value: int, increment: int, maxValue: int)
    requires 0 <= value <= maxValue
    requires increment == 1 || increment == -1
    ensures 0 <= IncrementWithWrap(value, increment, maxValue) <= maxValue
    ensures increment == 1 && value == maxValue ==> IncrementWithWrap(value, increment, maxValue) == 0
    ensures increment == -1 && value == 0 ==> IncrementWithWrap(value, increment, maxValue) == maxValue
  {
  }
}
