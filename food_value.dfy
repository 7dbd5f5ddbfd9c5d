/** `FoodValue.+` (the only arithmetic on nutrition facts) and its laws. */
module FoodValueSum {
  import opened Wrappers
  import opened MenuModel

  /** One field of `+`: absent + absent is absent, a lone value is kept,
      two values are added. */
  function AddField(l: Option<real>, r: Option<real>): (s: Option<real>)
    ensures l.None? && r.None? ==> s.None?
    ensures l.Some? && r.None? ==> s == l
    ensures l.None? && r.Some? ==> s == r
    ensures l.Some? && r.Some? ==> s == Some(l.value + r.value)
  {
    match (l, r)
    case (None, None) => None
    case (Some(a), None) => Some(a)
    case (None, Some(b)) => Some(b)
    case (Some(a), Some(b)) => Some(a + b)
  }

  /** `lhs + rhs`: five independent field combinations. */
  function Plus(lhs: FoodValue, rhs: FoodValue): (r: FoodValue)
  {
    FoodValue(
      AddField(lhs.fats, rhs.fats),
      AddField(lhs.proteins, rhs.proteins),
      AddField(lhs.carbohydrates, rhs.carbohydrates),
      AddField(lhs.kiloCalories, rhs.kiloCalories),
      AddField(lhs.weight, rhs.weight))
  }

  /** The `FoodValue` with every field absent. */
  const Absent := FoodValue(None, None, None, None, None)

  /** Each field of a sum is decided by that field of the two operands alone. */
  lemma PlusFieldwise(a: FoodValue, b: FoodValue, a': FoodValue, b': FoodValue)
    ensures a.fats == a'.fats && b.fats == b'.fats ==> Plus(a, b).fats == Plus(a', b').fats
    ensures a.proteins == a'.proteins && b.proteins == b'.proteins ==> Plus(a, b).proteins == Plus(a', b').proteins
    ensures a.carbohydrates == a'.carbohydrates && b.carbohydrates == b'.carbohydrates ==>
              Plus(a, b).carbohydrates == Plus(a', b').carbohydrates
    ensures a.kiloCalories == a'.kiloCalories && b.kiloCalories == b'.kiloCalories ==>
              Plus(a, b).kiloCalories == Plus(a', b').kiloCalories
    ensures a.weight == a'.weight && b.weight == b'.weight ==> Plus(a, b).weight == Plus(a', b').weight
  {
  }

  /** A field is absent in a sum exactly when it is absent on both sides. */
  lemma PlusAbsentIff(a: FoodValue, b: FoodValue)
    ensures Plus(a, b).fats.None? <==> a.fats.None? && b.fats.None?
    ensures Plus(a, b).proteins.None? <==> a.proteins.None? && b.proteins.None?
    ensures Plus(a, b).carbohydrates.None? <==> a.carbohydrates.None? && b.carbohydrates.None?
    ensures Plus(a, b).kiloCalories.None? <==> a.kiloCalories.None? && b.kiloCalories.None?
    ensures Plus(a, b).weight.None? <==> a.weight.None? && b.weight.None?
  {
  }

  /** The all-absent value is a left and a right identity. */
  lemma PlusIdentity(a: FoodValue)
    ensures Plus(Absent, a) == a
    ensures Plus(a, Absent) == a
  {
  }

  lemma PlusCommutative(a: FoodValue, b: FoodValue)
    ensures Plus(a, b) == Plus(b, a)
  {
  }

  /** Associativity holds for exact reals; it would not for `Double`. */
  lemma PlusAssociative(a: FoodValue, b: FoodValue, c: FoodValue)
    ensures Plus(Plus(a, b), c) == Plus(a, Plus(b, c))
  {
  }

  /** `values.reduce(initial, +)`: the left fold the source applies. */
  function Reduce(initial: FoodValue, values: seq<FoodValue>): FoodValue
    decreases |values|
  {
    if values == [] then initial else Reduce(Plus(initial, values[0]), values[1..])
  }

  /** The values `f` gives for the elements of `s`, summed from the right
      starting at `Absent`: an order-free reference for the fold. */
  function TotalOf<T>(s: seq<T>, f: T -> FoodValue): FoodValue
  {
    if s == [] then Absent else Plus(f(s[0]), TotalOf(s[1..], f))
  }

  /** The source's fold over mapped values equals the initial value plus
      the order-free total. */
  lemma {:induction false} ReduceIsPlusTotal<T>(initial: FoodValue, s: seq<T>, f: T -> FoodValue)
    ensures Reduce(initial, MapSeq(s, f)) == Plus(initial, TotalOf(s, f))
    decreases |s|
  {
    if s == [] {
      PlusIdentity(initial);
    } else {
      assert MapSeq(s, f)[1..] == MapSeq(s[1..], f);
      ReduceIsPlusTotal(Plus(initial, f(s[0])), s[1..], f);
      PlusAssociative(initial, f(s[0]), TotalOf(s[1..], f));
    }
  }

  lemma {:induction false} TotalOfRemove<T>(s: seq<T>, i: nat, f: T -> FoodValue)
    requires i < |s|
    ensures TotalOf(s, f) == Plus(f(s[i]), TotalOf(s[..i] + s[i + 1..], f))
  {
    if i > 0 {
      TotalOfRemove(s[1..], i - 1, f);
      assert s[1..][..i - 1] + s[1..][i..] == (s[..i] + s[i + 1..])[1..];
      assert (s[..i] + s[i + 1..])[0] == s[0];
      var rest := TotalOf(s[1..][..i - 1] + s[1..][i..], f);
      PlusAssociative(f(s[0]), f(s[i]), rest);
      PlusAssociative(f(s[i]), f(s[0]), rest);
      PlusCommutative(f(s[0]), f(s[i]));
    } else {
      assert s[..i] + s[i + 1..] == s[1..];
    }
  }

  /** Summing nutrition facts does not depend on the order of the terms. */
  lemma {:induction false} TotalOfPermutation<T>(a: seq<T>, b: seq<T>, f: T -> FoodValue)
    requires multiset(a) == multiset(b)
    ensures TotalOf(a, f) == TotalOf(b, f)
  {
    if a == [] {
      assert |b| == |multiset(b)| == 0;
    } else {
      assert a[0] in multiset(b);
      var i :| 0 <= i < |b| && b[i] == a[0];
      MultisetRemove(a, 0);
      MultisetRemove(b, i);
      assert a[..0] + a[1..] == a[1..];
      TotalOfPermutation(a[1..], b[..i] + b[i + 1..], f);
      TotalOfRemove(b, i, f);
    }
  }

  /** Hence the source's fold gives the same result for every order of the
      terms it folds. */
  lemma ReducePermutation<T>(initial: FoodValue, a: seq<T>, b: seq<T>, f: T -> FoodValue)
    requires multiset(a) == multiset(b)
    ensures Reduce(initial, MapSeq(a, f)) == Reduce(initial, MapSeq(b, f))
  {
    ReduceIsPlusTotal(initial, a, f);
    ReduceIsPlusTotal(initial, b, f);
    TotalOfPermutation(a, b, f);
  }
}
