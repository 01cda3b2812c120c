/** GradoopIds.min: the smaller of two identifiers, the first one on a tie. */
module GradoopIds {

  /**
   * min as written: it looks at the result of compareTo and takes the first
   * identifier when that result is 0 or exactly -1, and the second otherwise.
   */
  function Min<Id>(id1: Id, id2: Id, compareTo: (Id, Id) -> int): (r: Id)
    ensures r == id1 || r == id2
    ensures compareTo(id1, id2) == -1 ==> r == id1
    ensures compareTo(id1, id2) != 0 && compareTo(id1, id2) != -1 ==> r == id2
  {
    var compare := compareTo(id1, id2);
    if compare == 0 then id1 else if compare == -1 then id1 else id2
  }

  /** The tie-break: identifiers that compare equal give back the first one. */
  lemma MinTieBreak<Id>(id1: Id, id2: Id, compareTo: (Id, Id) -> int)
    requires compareTo(id1, id2) == 0
    ensures Min(id1, id2, compareTo) == id1
  {
  }

  /**
   * With a compareTo that answers only -1, 0 or 1 and reverses its answer
   * when the arguments are swapped, min is at most both of its arguments.
   */
  lemma MinIsLeastForThreeWay<Id>(id1: Id, id2: Id, compareTo: (Id, Id) -> int)
    requires compareTo(id1, id1) == 0 && compareTo(id2, id2) == 0
    requires -1 <= compareTo(id1, id2) <= 1
    requires compareTo(id2, id1) == -compareTo(id1, id2)
    ensures compareTo(Min(id1, id2, compareTo), id1) <= 0
    ensures compareTo(Min(id1, id2, compareTo), id2) <= 0
  {
  }

  /**
   * A compareTo may answer any negative number for "less"; then min, as
   * written, returns the larger identifier. Comparing integers by their
   * difference: min(1, 5) is 5.
   */
  lemma MinAsWrittenMissesOtherNegatives()
    ensures Min(1, 5, (a: int, b: int) => a - b) == 5
    ensures MinBySign(1, 5, (a: int, b: int) => a - b) == 1
  {
  }

  /** min as intended: the first identifier unless compareTo says it is greater. */
  function MinBySign<Id>(id1: Id, id2: Id, compareTo: (Id, Id) -> int): (r: Id)
    ensures r == id1 || r == id2
    ensures compareTo(id1, id2) <= 0 ==> r == id1
    ensures compareTo(id1, id2) > 0 ==> r == id2
  {
    if compareTo(id1, id2) <= 0 then id1 else id2
  }

  /**
   * The corrected min is at most both arguments for every compareTo that
   * only keeps signs consistent (zero on itself, opposite signs when
   * swapped), whatever magnitudes it answers.
   */
  lemma MinBySignIsLeast<Id>(id1: Id, id2: Id, compareTo: (Id, Id) -> int)
    requires compareTo(id1, id1) == 0 && compareTo(id2, id2) == 0
    requires compareTo(id1, id2) < 0 <==> compareTo(id2, id1) > 0
    requires compareTo(id1, id2) > 0 <==> compareTo(id2, id1) < 0
    ensures compareTo(MinBySign(id1, id2, compareTo), id1) <= 0
    ensures compareTo(MinBySign(id1, id2, compareTo), id2) <= 0
  {
  }

  /** Where compareTo keeps to -1, 0 and 1, the code as written is already right. */
  lemma MinAgreesOnThreeWay<Id>(id1: Id, id2: Id, compareTo: (Id, Id) -> int)
    requires -1 <= compareTo(id1, id2) <= 1
    ensures Min(id1, id2, compareTo) == MinBySign(id1, id2, compareTo)
  {
  }
}
