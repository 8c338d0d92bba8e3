/**
 * An offer of materials at a map position: how many units lie there, kept
 * in a signed byte, and the offer's priority. An offer with units is active;
 * one with none (or a negative count) can be removed.
 */
module MaterialOffers {
  import opened Common
  import JavaArith

  /** Java's `byte`. */
  newtype Byte = b: int | -128 <= b < 128

  /**
   * An offer: its fixed position, its priority (the offer-priority
   * enumeration is a type parameter here) and its unit count.
   */
  datatype MaterialOffer<P> = MaterialOffer(position: Point, priority: P, amount: Byte)

  /** The byte after `++` or `+= k` on a byte: Java wraps modulo 256. */
  function AddWrapped(b: Byte, k: int): (r: Byte)
    ensures (r as int - b as int - k) % 256 == 0
    ensures -128 <= b as int + k <= 127 ==> r as int == b as int + k
  {
    JavaArith.ToByte(b as int + k) as Byte
  }

  /** Two bytes congruent modulo 256 are equal. */
  lemma ByteCongruent(a: Byte, b: Byte)
    requires (a as int - b as int) % 256 == 0
    ensures a == b
  {
    var d := a as int - b as int;
    JavaArith.ModUnique(d + 255, 256, (d + 255) / 256, 255);
  }

  /**
   * `incrementAmount`: one more unit; returns the offer and the new
   * amount. At 127 the count wraps to -128.
   */
  function Increment<P>(o: MaterialOffer<P>): (r: (MaterialOffer<P>, Byte))
    ensures r.1 == r.0.amount
    ensures r.0.position == o.position && r.0.priority == o.priority
    ensures o.amount < 127 ==> r.0.amount as int == o.amount as int + 1
    ensures o.amount == 127 ==> r.0.amount == -128
  {
    var amount := AddWrapped(o.amount, 1);
    (o.(amount := amount), amount)
  }

  /** `decrementAmount`: one unit fewer; nothing is returned. At -128 the count wraps to 127. */
  function Decrement<P>(o: MaterialOffer<P>): (r: MaterialOffer<P>)
    ensures r.position == o.position && r.priority == o.priority
    ensures o.amount > -128 ==> r.amount as int == o.amount as int - 1
    ensures o.amount == -128 ==> r.amount == 127
  {
    o.(amount := AddWrapped(o.amount, -1))
  }

  /** `updatePriority`: the new priority, with position and amount as they were. */
  function UpdatePriority<P>(o: MaterialOffer<P>, priority: P): (r: MaterialOffer<P>)
    ensures r.priority == priority
    ensures r.position == o.position && r.amount == o.amount
  {
    o.(priority := priority)
  }

  /** An offer is active while it holds at least one unit. */
  predicate IsActive<P>(o: MaterialOffer<P>)
  {
    o.amount > 0
  }

  /** An offer can be removed once it holds no unit. */
  predicate CanBeRemoved<P>(o: MaterialOffer<P>)
  {
    o.amount <= 0
  }

  /** Every offer is either active or removable, never both. */
  lemma ActiveOrRemovable<P>(o: MaterialOffer<P>)
    ensures IsActive(o) <==> !CanBeRemoved(o)
  {
  }

  /** Incrementing then decrementing, or the reverse, gives back the offer, wrap-around included. */
  lemma IncrementDecrementInverse<P>(o: MaterialOffer<P>)
    ensures Decrement(Increment(o).0) == o
    ensures Increment(Decrement(o)).0 == o
  {
    ByteCongruent(Decrement(Increment(o).0).amount, o.amount);
    ByteCongruent(Increment(Decrement(o)).0.amount, o.amount);
  }

  /**
   * Whether an offer is active does not depend on its priority, and an
   * offer's priority can be replaced without touching its units.
   */
  lemma PriorityIndependent<P>(o: MaterialOffer<P>, priority: P)
    ensures IsActive(UpdatePriority(o, priority)) <==> IsActive(o)
    ensures Increment(UpdatePriority(o, priority)).0 == UpdatePriority(Increment(o).0, priority)
    ensures Decrement(UpdatePriority(o, priority)) == UpdatePriority(Decrement(o), priority)
  {
  }

  /** The offer after k increments. */
  function IncrementTimes<P>(o: MaterialOffer<P>, k: nat): MaterialOffer<P>
    decreases k
  {
    if k == 0 then o else Increment(IncrementTimes(o, k - 1)).0
  }

  /**
   * k increments add k to the amount modulo 256: the byte counts units
   * correctly only while the true count stays below 128.
   */
  lemma {:induction false} IncrementTimesWraps<P>(o: MaterialOffer<P>, k: nat)
    ensures IncrementTimes(o, k).amount == AddWrapped(o.amount, k)
    ensures IncrementTimes(o, k).position == o.position && IncrementTimes(o, k).priority == o.priority
  {
    if k > 0 {
      IncrementTimesWraps(o, k - 1);
      JavaArith.ToByteShift(o.amount as int + (k - 1), 1);
    }
  }

  /**
   * An active offer at 127 units that receives one more unit wraps to
   * -128 and becomes removable.
   */
  lemma OverflowMakesRemovable<P>(o: MaterialOffer<P>)
    requires o.amount == 127
    ensures IsActive(o) && CanBeRemoved(Increment(o).0)
  {
  }
}
